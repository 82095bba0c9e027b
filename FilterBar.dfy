/** The filter bar: the page-size choices, the label of each column filter
    (`formatColumnName`), and the filter inputs of the first five columns. */
module FilterBar {
  import opened Js

  /** The choices of the "Entries" select. */
  const PageSizeOptions: seq<int> := [5, 10, 25, 50]

  /** Every choice is a positive page size, offered once, in increasing order. */
  lemma PageSizeChoices()
    ensures |PageSizeOptions| == 4
    ensures forall i :: 0 <= i < |PageSizeOptions| ==> PageSizeOptions[i] > 0
    ensures forall i, j :: 0 <= i < j < |PageSizeOptions| ==> PageSizeOptions[i] < PageSizeOptions[j]
  {
  }

  function CountUpper(s: string): (n: nat)
    ensures n <= |s|
  {
    if s == [] then 0 else (if IsUpper(s[0]) then 1 else 0) + CountUpper(s[1..])
  }

  /** `s.replace(/([A-Z])/g, ' $1')`: a space before every A-Z letter. */
  function SpaceBeforeCaps(s: string): (r: string)
    ensures |r| == |s| + CountUpper(s)
  {
    if s == [] then []
    else (if IsUpper(s[0]) then [' ', s[0]] else [s[0]]) + SpaceBeforeCaps(s[1..])
  }

  /** The spaced text starts with the inserted space or with the first character itself. */
  lemma SpacingStart(s: string)
    requires s != []
    ensures SpaceBeforeCaps(s) != [] && SpaceBeforeCaps(s)[0] == if IsUpper(s[0]) then ' ' else s[0]
  {
  }

  /** Undoes `SpaceBeforeCaps`: drops each space that stands right before an A-Z letter. */
  function DropSpaceBeforeCaps(r: string): string
    decreases |r|
  {
    if r == [] then []
    else if |r| >= 2 && r[0] == ' ' && IsUpper(r[1]) then [r[1]] + DropSpaceBeforeCaps(r[2..])
    else [r[0]] + DropSpaceBeforeCaps(r[1..])
  }

  /** No information is lost by the spacing: dropping the inserted spaces gives
      the column back, whatever spaces it held already. */
  lemma {:induction false} SpacingRoundTrip(s: string)
    ensures DropSpaceBeforeCaps(SpaceBeforeCaps(s)) == s
  {
    if s != [] {
      var rest := SpaceBeforeCaps(s[1..]);
      SpacingRoundTrip(s[1..]);
      if IsUpper(s[0]) {
        assert SpaceBeforeCaps(s) == [' ', s[0]] + rest;
        assert ([' ', s[0]] + rest)[2..] == rest;
      } else {
        assert SpaceBeforeCaps(s) == [s[0]] + rest;
        assert ([s[0]] + rest)[1..] == rest;
        if s[0] == ' ' && s[1..] != [] {
          // a space of the column is followed by an inserted space or a non-capital
          SpacingStart(s[1..]);
          assert !IsUpper(rest[0]);
        }
      }
      assert [s[0]] + s[1..] == s;
    }
  }

  /** Where the regex `.` does not match: the JavaScript line terminators. */
  predicate IsLineTerminator(c: char) {
    c == '\n' || c == '\r' || c == '\U{2028}' || c == '\U{2029}'
  }

  /** `s.replace(/^./, str => str.toUpperCase())`: the first character is
      upper-cased unless the string is empty or starts with a line terminator. */
  function CapitalizeFirst(s: string): (r: string)
    ensures |r| == |s|
    ensures s != [] && !IsLineTerminator(s[0]) ==> r[0] == UpperChar(s[0])
    ensures forall i :: 0 < i < |s| ==> r[i] == s[i]
    ensures s == [] || IsLineTerminator(s[0]) ==> r == s
  {
    if s != [] && !IsLineTerminator(s[0]) then [UpperChar(s[0])] + s[1..] else s
  }

  /** `formatColumnName`. */
  function FormatColumnName(column: string): (name: string)
    ensures '.' in column ==> name == column || (IsLastPart(column, '.', name) && name != "")
    ensures '.' !in column ==> |name| == |column| + CountUpper(column)
  {
    if '.' in column then
      LastPartIsTail(column, '.');
      var last := Last(Split(column, '.'));
      if last == "" then column else last
    else CapitalizeFirst(SpaceBeforeCaps(column))
  }

  /** A dotted column is named by the text after its last '.', or by itself when
      it ends with a '.'. */
  lemma DottedColumnName(column: string)
    requires '.' in column
    ensures column[|column| - 1] == '.' ==> FormatColumnName(column) == column
    ensures column[|column| - 1] != '.' ==>
      IsLastPart(column, '.', FormatColumnName(column)) && FormatColumnName(column) != ""
  {
    LastPartIsTail(column, '.');
    var last := Last(Split(column, '.'));
    if column[|column| - 1] == '.' {
      assert last == "";
    } else {
      assert last != "";
    }
  }

  /** A camelCase column name is recovered from its label: lower the first
      letter again and drop the spaces the label put before the capitals. */
  lemma ColumnNameRoundTrip(column: string)
    requires column != [] && IsLower(column[0]) && '.' !in column
    ensures var name := FormatColumnName(column);
      name != [] && DropSpaceBeforeCaps([LowerChar(name[0])] + name[1..]) == column
  {
    var spaced := SpaceBeforeCaps(column);
    SpacingStart(column);
    var name := FormatColumnName(column);
    assert name == [UpperChar(spaced[0])] + spaced[1..];
    assert [LowerChar(name[0])] + name[1..] == spaced;
    SpacingRoundTrip(column);
  }

  /** Spacing works piece by piece. */
  lemma {:induction false} SpacingAppend(a: string, b: string)
    ensures SpaceBeforeCaps(a + b) == SpaceBeforeCaps(a) + SpaceBeforeCaps(b)
  {
    if a != [] {
      SpacingAppend(a[1..], b);
      assert (a + b)[1..] == a[1..] + b;
    } else {
      assert a + b == b;
    }
  }

  /** Text with neither an A-Z letter nor a '.'. */
  predicate Plain(s: string) {
    s == [] || (!IsUpper(s[0]) && s[0] != '.' && Plain(s[1..]))
  }

  lemma {:induction false} PlainHasNoDot(s: string)
    requires Plain(s)
    ensures '.' !in s
  {
    if s != [] {
      PlainHasNoDot(s[1..]);
      assert s == [s[0]] + s[1..];
    }
  }

  /** Text without capitals is left as it is. */
  lemma {:induction false} SpacingWithoutCaps(s: string)
    requires Plain(s)
    ensures SpaceBeforeCaps(s) == s
  {
    if s != [] {
      SpacingWithoutCaps(s[1..]);
      assert [s[0]] + s[1..] == s;
    }
  }

  lemma SpacingChar(c: char)
    ensures SpaceBeforeCaps([c]) == if IsUpper(c) then [' ', c] else [c]
  {
    assert [c][1..] == [];
  }

  /** Spacing a word without capitals followed by a capitalised one. */
  lemma SpacingTwoWords(head: string, cap: char, tail: string)
    requires Plain(head) && Plain(tail) && IsUpper(cap)
    ensures SpaceBeforeCaps(head + [cap] + tail) == head + [' ', cap] + tail
  {
    SpacingAppend(head + [cap], tail);
    SpacingAppend(head, [cap]);
    SpacingWithoutCaps(head);
    SpacingWithoutCaps(tail);
    SpacingChar(cap);
  }

  /** A lower-case word followed by a capitalised one is labelled as two
      capitalised words. */
  lemma TwoWordName(head: string, cap: char, tail: string)
    requires head != [] && IsLower(head[0]) && Plain(head) && Plain(tail) && IsUpper(cap)
    ensures FormatColumnName(head + [cap] + tail) == [UpperChar(head[0])] + head[1..] + [' ', cap] + tail
  {
    SpacingTwoWords(head, cap, tail);
    NoDotInTwoWords(head, cap, tail);
    CapitalizeTwoWords(head, cap, tail);
  }

  lemma NoDotInTwoWords(head: string, cap: char, tail: string)
    requires Plain(head) && Plain(tail) && IsUpper(cap)
    ensures '.' !in head + [cap] + tail
  {
    PlainHasNoDot(head);
    PlainHasNoDot(tail);
  }

  lemma CapitalizeTwoWords(head: string, cap: char, tail: string)
    requires head != [] && IsLower(head[0])
    ensures CapitalizeFirst(head + [' ', cap] + tail) == [UpperChar(head[0])] + head[1..] + [' ', cap] + tail
  {
    var spaced := head + [' ', cap] + tail;
    assert spaced[0] == head[0];
    assert spaced[1..] == head[1..] + [' ', cap] + tail;
  }

  /** "firstName" is labelled "First Name". */
  lemma FirstNameExample()
    ensures FormatColumnName("firstName") == "First Name"
  {
    FirstNameParts();
    FirstNameSpelled();
  }

  /** The same words, written as concatenations so that the solver meets the
      two words separately rather than one long literal. */
  lemma FirstNameParts()
    ensures FormatColumnName("first" + "Name") == "First" + " Name"
  {
    assert "first" + ['N'] + "ame" == "first" + "Name";
    assert Plain("first") && Plain("ame") by {
      assert "first"[1..] == "irst" && "irst"[1..] == "rst" && "rst"[1..] == "st" && "st"[1..] == "t";
      assert "ame"[1..] == "me" && "me"[1..] == "e";
    }
    TwoWordName("first", 'N', "ame");
  }

  lemma FirstNameSpelled()
    ensures "first" + "Name" == "firstName" && "First" + " Name" == "First Name"
  {
  }

  /** One column filter as rendered: its column, its label and the text it shows. */
  datatype FilterInput = FilterInput(column: string, caption: string, value: string)

  /** `columns.slice(0, 5).map(...)`, each input showing `activeFilters[column] || ''`. */
  function FilterInputs(columns: seq<string>, activeFilters: map<string, string>): (inputs: seq<FilterInput>)
    ensures |inputs| == Min(5, |columns|)
    ensures forall i :: 0 <= i < |inputs| ==>
      inputs[i].column == columns[i] && inputs[i].caption == FormatColumnName(columns[i]) &&
      (inputs[i].value != "" <==> columns[i] in activeFilters && activeFilters[columns[i]] != "") &&
      (inputs[i].value != "" ==> inputs[i].value == activeFilters[columns[i]])
  {
    var shown := JsSlice(columns, 0, 5);
    seq(|shown|, i requires 0 <= i < |shown| =>
      FilterInput(shown[i], FormatColumnName(shown[i]),
        if shown[i] in activeFilters then activeFilters[shown[i]] else ""))
  }

  /** A rendered input whose column `activeFilters` does not hold shows nothing. */
  lemma UntrackedColumnShowsNothing(columns: seq<string>, activeFilters: map<string, string>, i: int)
    requires 0 <= i < Min(5, |columns|) && columns[i] !in activeFilters
    ensures FilterInputs(columns, activeFilters)[i].value == ""
  {
  }

  /** A column that appears only from the sixth place on gets no input, so no
      filter can be typed for it. */
  lemma LaterColumnsHaveNoInput(columns: seq<string>, activeFilters: map<string, string>, c: string)
    requires c !in columns[..Min(5, |columns|)]
    ensures forall input :: input in FilterInputs(columns, activeFilters) ==> input.column != c
  {
    var inputs := FilterInputs(columns, activeFilters);
    forall input | input in inputs ensures input.column != c {
      var i :| 0 <= i < |inputs| && inputs[i] == input;
      assert columns[..Min(5, |columns|)][i] == columns[i];
    }
  }
}
