/** The comma-separated lists of the configuration: splitting, trimming, and the
    parser as the inverse of joining. */
module CommaList {

  predicate IsBlank(c: char) { c == ' ' || c == '\t' || c == '\n' }

  // ----- what splitting and trimming mean

  /** The parts of s between commas, empty ones included: one more than there are
      commas. */
  function SplitAll(s: string): (parts: seq<string>)
    ensures parts != []
  {
    if s == [] then [""]
    else
      var parts := SplitAll(s[..|s| - 1]);
      if s[|s| - 1] == ',' then parts + [""]
      else parts[..|parts| - 1] + [parts[|parts| - 1] + [s[|s| - 1]]]
  }

  predicate Trimmed(s: string) {
    s == "" || (!IsBlank(s[0]) && !IsBlank(s[|s| - 1]))
  }

  predicate AllBlank(s: string) {
    forall i | 0 <= i < |s| :: IsBlank(s[i])
  }

  /** t is s without the blanks around it. */
  ghost predicate IsTrimOf(t: string, s: string) {
    Trimmed(t) && exists before, after :: AllBlank(before) && AllBlank(after) && s == before + t + after
  }

  function TrimLeft(s: string): (t: string)
    ensures t == "" || !IsBlank(t[0])
  {
    if s != "" && IsBlank(s[0]) then TrimLeft(s[1..]) else s
  }

  function TrimRight(s: string): (t: string)
    ensures t <= s && (t == "" || !IsBlank(t[|t| - 1]))
    ensures t == "" || s[0] == t[0]
  {
    if s != "" && IsBlank(s[|s| - 1]) then TrimRight(s[..|s| - 1]) else s
  }

  function TrimOf(s: string): (t: string)
    ensures Trimmed(t)
  {
    TrimRight(TrimLeft(s))
  }

  /** The non-empty trimmed parts. */
  function Items(parts: seq<string>): seq<string> {
    if parts == [] then []
    else
      var item := TrimOf(parts[|parts| - 1]);
      Items(parts[..|parts| - 1]) + (if item == "" then [] else [item])
  }

  function Parse(s: string): seq<string> { Items(SplitAll(s)) }

  /** The items with a comma between each two. */
  function Join(items: seq<string>): string {
    if items == [] then ""
    else if |items| == 1 then items[0]
    else Join(items[..|items| - 1]) + "," + items[|items| - 1]
  }

  // ----- the code

  /** `splitByComma`: like `SplitAll`, but a trailing empty part is not appended. */
  method SplitByComma(s: string) returns (parts: seq<string>)
    ensures var all := SplitAll(s);
      parts == if all[|all| - 1] == "" then all[..|all| - 1] else all
  {
    parts := [];
    var current := "";
    for i := 0 to |s|
      invariant SplitAll(s[..i]) == parts + [current]
    {
      assert s[..i + 1][..i] == s[..i];
      if s[i] == ',' {
        parts := parts + [current];
        current := "";
      } else {
        current := current + [s[i]];
      }
    }
    assert s[..|s|] == s;
    if current != "" {
      parts := parts + [current];
    }
  }

  /** The first loop of `trim`. */
  method SkipBlanks(s: string) returns (start: nat)
    ensures start <= |s| && s[start..] == TrimLeft(s)
  {
    start := 0;
    while start < |s| && IsBlank(s[start])
      invariant start <= |s|
      invariant TrimLeft(s) == TrimLeft(s[start..])
    {
      TrimLeftStep(s[start..]);
      assert s[start..][1..] == s[start + 1..];
      start := start + 1;
    }
  }

  lemma TrimLeftStep(s: string)
    requires s != "" && IsBlank(s[0])
    ensures TrimLeft(s) == TrimLeft(s[1..])
  {
  }

  lemma TrimRightStep(s: string, start: nat, end: nat)
    requires start < end <= |s| && IsBlank(s[end - 1])
    ensures TrimRight(s[start..end]) == TrimRight(s[start..end - 1])
  {
    assert s[start..end][..end - start - 1] == s[start..end - 1];
  }

  lemma TrimRightEnds(t: string)
    requires t == "" || !IsBlank(t[|t| - 1])
    ensures TrimRight(t) == t
  {
  }

  /** The second loop. */
  method SkipBlanksBack(s: string, start: nat) returns (end: nat)
    requires start <= |s|
    ensures start <= end <= |s| && s[start..end] == TrimRight(s[start..])
  {
    end := |s|;
    assert s[start..end] == s[start..];
    while end > start && IsBlank(s[end - 1])
      invariant start <= end <= |s|
      invariant TrimRight(s[start..]) == TrimRight(s[start..end])
    {
      TrimRightStep(s, start, end);
      end := end - 1;
    }
    TrimRightEnds(s[start..end]);
  }

  /** `trim`: two indices move in from the ends. */
  method Trim(s: string) returns (t: string)
    ensures t == TrimOf(s)
  {
    var start := SkipBlanks(s);
    var end := SkipBlanksBack(s, start);
    t := s[start..end];
  }

  lemma ItemsMore(parts: seq<string>, i: nat)
    requires i < |parts|
    ensures var item := TrimOf(parts[i]);
      Items(parts[..i + 1]) == Items(parts[..i]) + if item == "" then [] else [item]
  {
    assert parts[..i + 1][..i] == parts[..i];
  }

  /** `parseCommaSeparated`: for every string, split at all commas, trim each part,
      drop the empty ones. */
  method ParseCommaSeparated(s: string) returns (result: seq<string>)
    ensures result == Parse(s)
  {
    result := [];
    var parts := SplitByComma(s);
    for i := 0 to |parts|
      invariant result == Items(parts[..i])
    {
      ItemsMore(parts, i);
      var trimmed := Trim(parts[i]);
      if trimmed != "" {
        result := result + [trimmed];
      }
    }
    assert parts[..|parts|] == parts;
  }

  // ----- trimming

  lemma {:induction false} TrimLeftSplits(s: string) returns (before: string)
    ensures AllBlank(before) && s == before + TrimLeft(s)
  {
    if s != "" && IsBlank(s[0]) {
      var rest := TrimLeftSplits(s[1..]);
      before := [s[0]] + rest;
    } else {
      before := "";
    }
  }

  lemma {:induction false} TrimRightSplits(s: string) returns (after: string)
    ensures AllBlank(after) && s == TrimRight(s) + after
  {
    if s != "" && IsBlank(s[|s| - 1]) {
      var rest := TrimRightSplits(s[..|s| - 1]);
      after := rest + [s[|s| - 1]];
    } else {
      after := "";
    }
  }

  lemma TrimOfIsTrim(s: string)
    ensures IsTrimOf(TrimOf(s), s)
  {
    var before := TrimLeftSplits(s);
    var after := TrimRightSplits(TrimLeft(s));
    assert s == before + TrimOf(s) + after;
  }

  /** There is only one way to trim. */
  lemma TrimIsUnique(s: string, t: string)
    requires IsTrimOf(t, s)
    ensures t == TrimOf(s)
  {
    var before, after :| AllBlank(before) && AllBlank(after) && s == before + t + after;
    assert s == before + (t + after);
    DropBlanksLeft(before, t + after);
    if t == "" {
      assert t + after == after;
      DropBlanksLeft(after, "");
      assert after + "" == after;
    } else {
      assert TrimLeft(t + after) == t + after;
      DropBlanksRight(t, after);
      assert TrimRight(t) == t;
    }
  }

  lemma {:induction false} DropBlanksLeft(before: string, s: string)
    requires AllBlank(before)
    ensures TrimLeft(before + s) == TrimLeft(s)
  {
    if before == "" {
      assert before + s == s;
    } else {
      assert (before + s)[1..] == before[1..] + s;
      DropBlanksLeft(before[1..], s);
    }
  }

  lemma {:induction false} DropBlanksRight(s: string, after: string)
    requires AllBlank(after)
    ensures TrimRight(s + after) == TrimRight(s)
  {
    if after == "" {
      assert s + after == s;
    } else {
      var n := |after| - 1;
      assert (s + after)[..|s + after| - 1] == s + after[..n];
      DropBlanksRight(s, after[..n]);
    }
  }

  // ----- splitting and joining

  predicate CommaFree(s: string) { ',' !in s }

  lemma {:induction false} SplitAppend(s: string, t: string)
    requires CommaFree(t)
    ensures SplitAll(s + t) == var parts := SplitAll(s); parts[..|parts| - 1] + [parts[|parts| - 1] + t]
  {
    var parts := SplitAll(s);
    if t == "" {
      assert s + t == s;
      assert parts[|parts| - 1] + t == parts[|parts| - 1];
    } else {
      var n := |t| - 1;
      assert (s + t)[..|s + t| - 1] == s + t[..n];
      SplitAppend(s, t[..n]);
      assert parts[|parts| - 1] + t == (parts[|parts| - 1] + t[..n]) + [t[n]];
    }
  }

  lemma SplitComma(s: string)
    ensures SplitAll(s + ",") == SplitAll(s) + [""]
  {
    assert (s + ",")[..|s|] == s;
  }

  lemma SplitOneMore(s: string, item: string)
    requires CommaFree(item)
    ensures SplitAll(s + "," + item) == SplitAll(s) + [item]
  {
    SplitComma(s);
    SplitAppend(s + ",", item);
    assert (SplitAll(s) + [""])[..|SplitAll(s)|] == SplitAll(s);
    assert "" + item == item;
  }

  lemma SplitOne(item: string)
    requires CommaFree(item)
    ensures SplitAll(item) == [item]
  {
    SplitAppend("", item);
    assert "" + item == item;
  }

  lemma JoinLast(items: seq<string>)
    requires |items| > 1
    ensures Join(items) == Join(items[..|items| - 1]) + "," + items[|items| - 1]
  {
  }

  /** Joining comma-free items and splitting at all commas gives them back. */
  lemma {:induction false} SplitJoin(items: seq<string>)
    requires items != [] && forall i | 0 <= i < |items| :: CommaFree(items[i])
    ensures SplitAll(Join(items)) == items
  {
    var n := |items| - 1;
    if n == 0 {
      SplitOne(items[0]);
      assert Join(items) == items[0];
      assert items == [items[0]];
    } else {
      JoinLast(items);
      SplitJoin(items[..n]);
      SplitOneMore(Join(items[..n]), items[n]);
      assert items == items[..n] + [items[n]];
    }
  }

  lemma JoinLonger(parts: seq<string>, tail: string)
    requires parts != []
    ensures Join(parts[..|parts| - 1] + [parts[|parts| - 1] + tail]) == Join(parts) + tail
  {
    var front, last := parts[..|parts| - 1], parts[|parts| - 1];
    var longer := front + [last + tail];
    if |parts| > 1 {
      JoinLast(parts);
      JoinLast(longer);
      assert longer[..|longer| - 1] == front;
      AppendTwice(Join(front) + ",", last, tail);
    }
  }

  lemma AppendTwice(a: string, b: string, c: string)
    ensures a + (b + c) == a + b + c
  {
  }

  /** Splitting loses no character: joining the parts gives the string back. */
  lemma {:induction false} JoinSplit(s: string)
    ensures Join(SplitAll(s)) == s
  {
    if s == [] {
    } else {
      var front, last := s[..|s| - 1], s[|s| - 1];
      var parts := SplitAll(front);
      JoinSplit(front);
      assert s == front + [last];
      if last == ',' {
        JoinLast(parts + [""]);
        assert (parts + [""])[..|parts|] == parts;
        assert Join(parts + [""]) == Join(parts) + "," + "" == s;
      } else {
        JoinLonger(parts, [last]);
      }
    }
  }

  lemma {:induction false} PartsAreCommaFree(s: string)
    ensures forall i | 0 <= i < |SplitAll(s)| :: CommaFree(SplitAll(s)[i])
  {
    if s != "" {
      PartsAreCommaFree(s[..|s| - 1]);
    }
  }

  predicate WellFormed(item: string) { item != "" && CommaFree(item) && Trimmed(item) }

  lemma TrimmedStays(item: string)
    requires Trimmed(item)
    ensures TrimOf(item) == item
  {
  }

  lemma {:induction false} WellFormedItems(items: seq<string>)
    requires forall i | 0 <= i < |items| :: WellFormed(items[i])
    ensures Items(items) == items
  {
    if items != [] {
      var n := |items| - 1;
      var front, last := items[..n], items[n];
      WellFormedItems(front);
      TrimmedStays(last);
      ItemsMore(items, n);
      assert items[..n + 1] == items == front + [last];
    }
  }

  lemma TrimKeepsCommaFree(s: string)
    requires CommaFree(s)
    ensures CommaFree(TrimOf(s))
  {
    var before := TrimLeftSplits(s);
    var after := TrimRightSplits(TrimLeft(s));
    assert s == before + TrimOf(s) + after;
  }

  lemma {:induction false} ItemsAreWellFormed(parts: seq<string>)
    requires forall i | 0 <= i < |parts| :: CommaFree(parts[i])
    ensures forall i | 0 <= i < |Items(parts)| :: WellFormed(Items(parts)[i])
  {
    if parts != [] {
      ItemsAreWellFormed(parts[..|parts| - 1]);
      TrimKeepsCommaFree(parts[|parts| - 1]);
    }
  }

  // ----- the parser inverts joining

  /** Every parsed list consists of non-empty, comma-free, trimmed items. */
  lemma ParseIsWellFormed(s: string)
    ensures forall i | 0 <= i < |Parse(s)| :: WellFormed(Parse(s)[i])
  {
    PartsAreCommaFree(s);
    ItemsAreWellFormed(SplitAll(s));
  }

  /** Parsing inverts comma-joining exactly on lists of such items. */
  lemma ParseInvertsJoin(items: seq<string>)
    ensures Parse(Join(items)) == items <==> forall i | 0 <= i < |items| :: WellFormed(items[i])
  {
    ParseIsWellFormed(Join(items));
    if forall i | 0 <= i < |items| :: WellFormed(items[i]) {
      if items == [] {
        assert Parse("") == [];
      } else {
        SplitJoin(items);
        WellFormedItems(items);
      }
    }
  }

  /** Parsing, joining and parsing again changes nothing. */
  lemma ParseIsStable(s: string)
    ensures Parse(Join(Parse(s))) == Parse(s)
  {
    ParseIsWellFormed(s);
    ParseInvertsJoin(Parse(s));
  }

  /** Spaces, tabs and newlines are trimmed, and nothing else is. */
  lemma BlanksAreThree(c: char)
    ensures TrimOf([c]) == if c == ' ' || c == '\t' || c == '\n' then "" else [c]
  {
    if IsBlank(c) {
      TrimLeftStep([c]);
      assert [c][1..] == "";
    }
  }

  lemma TrimSecond(y: char) returns (second: string)
    requires y !in " \t\n"
    ensures second == [' ', y, '\t', '\n'] && TrimOf(second) == [y]
  {
    second := [' ', y, '\t', '\n'];
    assert y != " \t\n"[0] && y != " \t\n"[1] && y != " \t\n"[2];
    assert AllBlank([' ']) && AllBlank(['\t', '\n']) && second == [' '] + [y] + ['\t', '\n'];
    TrimIsUnique(second, [y]);
  }

  lemma ItemsOfTwo(first: string, second: string)
    requires TrimOf(first) != "" && TrimOf(second) != ""
    ensures Items([first, second]) == [TrimOf(first), TrimOf(second)]
  {
    var parts := [first, second];
    ItemsMore(parts, 0);
    ItemsMore(parts, 1);
    assert parts[..2] == parts && parts[..0] == [];
  }

  /** Commas separate, and the blanks around an item go. */
  lemma TwoItems(x: char, y: char)
    requires x !in " \t\n," && y !in " \t\n,"
    ensures Parse([x] + "," + [' ', y, '\t', '\n']) == [[x], [y]]
  {
    assert x != " \t\n,"[0] && x != " \t\n,"[1] && x != " \t\n,"[2] && x != " \t\n,"[3];
    assert y != " \t\n,"[0] && y != " \t\n,"[1] && y != " \t\n,"[2] && y != " \t\n,"[3];
    BlanksAreThree(x);
    var second := TrimSecond(y);
    var parts := [[x], second];
    assert parts[..1] == [[x]];
    JoinLast(parts);
    SplitJoin(parts);
    ItemsOfTwo([x], second);
  }
}
