/** The report renderer that replaces each sensitive value by a marker, one
    value after another, and when that really removes them all. */
module Redaction {
  import opened Basics
  import opened Paths
  import TextBasics

  const MARK := "[REDACTED]"
  const WORD := "REDACTED"
  const MIN_LENGTH: nat := 4

  predicate Occurs(part: string, text: string) {
    exists i :: 0 <= i <= |text| && part <= text[i..]
  }

  /** `str.replace` of the empty string: a marker at every position. */
  function Spread(text: string): string {
    MARK + if text == "" then "" else [text[0]] + Spread(text[1..])
  }

  /** `str.replace`: leftmost, non-overlapping. */
  function Replace(text: string, value: string): string {
    if value == "" then Spread(text)
    else if |text| < |value| then text
    else if value <= text then MARK + Replace(text[|value|..], value)
    else [text[0]] + Replace(text[1..], value)
  }

  /** `str.count`: how many replacements that makes. */
  function Matches(text: string, value: string): nat {
    if value == "" then |text| + 1
    else if |text| < |value| then 0
    else if value <= text then 1 + Matches(text[|value|..], value)
    else Matches(text[1..], value)
  }

  function ReplaceAll(text: string, values: seq<string>): string {
    if values == [] then text
    else Replace(ReplaceAll(text, values[..|values| - 1]), values[|values| - 1])
  }

  function AllMatches(text: string, values: seq<string>): nat {
    if values == [] then 0
    else
      var front := values[..|values| - 1];
      AllMatches(text, front) + Matches(ReplaceAll(text, front), values[|values| - 1])
  }

  /** `str(value or "").strip()`. */
  function Cleaned(value: Option<string>): string {
    match value
    case None => ""
    case Some(text) => Strip(text)
  }

  function SensitiveOf(values: seq<Option<string>>): seq<string> {
    if values == [] then []
    else
      var front, cleaned := SensitiveOf(values[..|values| - 1]), Cleaned(values[|values| - 1]);
      if |cleaned| < MIN_LENGTH || cleaned in front then front else front + [cleaned]
  }

  method SensitiveValues(values: seq<Option<string>>) returns (sensitive: seq<string>)
    ensures sensitive == SensitiveOf(values)
  {
    var seen: set<string> := {};
    sensitive := [];
    for i := 0 to |values|
      invariant sensitive == SensitiveOf(values[..i])
      invariant forall v :: v in seen <==> v in sensitive
    {
      assert values[..i + 1][..i] == values[..i];
      var cleaned := Cleaned(values[i]);
      if |cleaned| < MIN_LENGTH || cleaned in seen {
        continue;
      }
      seen := seen + {cleaned};
      sensitive := sensitive + [cleaned];
    }
    assert values[..|values|] == values;
  }

  /** `dump` is the report as text, before and after the replacement count is
      filled in. The count comes from a first pass, the result from a second. */
  method RenderRedactedReport(dump: Option<nat> -> string, values: seq<string>) returns (text: string, replacements: nat)
    ensures replacements == AllMatches(dump(None), values)
    ensures text == ReplaceAll(dump(Some(replacements)), values)
  {
    text, replacements := dump(None), 0;
    for i := 0 to |values|
      invariant text == ReplaceAll(dump(None), values[..i]) && replacements == AllMatches(dump(None), values[..i])
    {
      assert values[..i + 1][..i] == values[..i];
      AbsentIsNoMatch(text, values[i]);
      if Occurs(values[i], text) {
        replacements := replacements + Matches(text, values[i]);
        text := Replace(text, values[i]);
      }
    }
    assert values[..|values|] == values;
    text := dump(Some(replacements));
    for i := 0 to |values|
      invariant text == ReplaceAll(dump(Some(replacements)), values[..i])
    {
      assert values[..i + 1][..i] == values[..i];
      text := Replace(text, values[i]);
    }
  }

  // ----- What replacement does to occurrences -----

  lemma OccursInTail(part: string, text: string, n: nat)
    requires n <= |text| && Occurs(part, text[n..])
    ensures Occurs(part, text)
  {
    var i :| 0 <= i <= |text[n..]| && part <= text[n..][i..];
    assert text[n + i..] == text[n..][i..];
  }

  lemma PrefixOccurs(part: string, text: string)
    requires part <= text
    ensures Occurs(part, text)
  {
    assert text[0..] == text;
  }

  lemma OccursFits(part: string, text: string)
    requires Occurs(part, text)
    ensures |part| <= |text|
  {
    var i :| 0 <= i <= |text| && part <= text[i..];
  }

  lemma OccursInFront(part: string, text: string)
    requires text != ""
    ensures Occurs(part, text) ==> part <= text || Occurs(part, text[1..])
  {
    if i :| 0 <= i <= |text| && part <= text[i..] {
      if i == 0 {
        assert text[0..] == text;
      } else {
        assert text[i..] == text[1..][i - 1..];
      }
    }
  }

  lemma {:induction false} AbsentIsNoMatch(text: string, value: string)
    ensures !Occurs(value, text) ==> Replace(text, value) == text && Matches(text, value) == 0
    ensures Occurs(value, text) ==> Occurs(MARK, Replace(text, value)) && Matches(text, value) > 0
  {
    if value == "" {
      assert value <= text[0..] && MARK <= Spread(text)[0..];
    } else if |text| < |value| {
    } else if value <= text {
      assert text[0..] == text;
      var r := Replace(text, value);
      assert MARK <= r[0..];
    } else {
      AbsentIsNoMatch(text[1..], value);
      if Occurs(value, text[1..]) {
        OccursInTail(value, text, 1);
        var r := Replace(text, value);
        assert r[1..] == Replace(text[1..], value);
        OccursInTail(MARK, r, 1);
      } else {
        OccursInFront(value, text);
      }
    }
  }

  /** Two texts agree as far as both of them reach. */
  predicate Agree(a: string, b: string) {
    a <= b || b <= a
  }

  /** However the value is laid over the marker, even only in part, the two
      differ somewhere: neither holds the other and neither ends as the other begins. */
  predicate Clear(v: string) {
    && v != ""
    && ClearOfFront(v)
    && (forall j :: 0 <= j < |MARK| ==> !Agree(v, MARK[j..]))
  }

  predicate ClearOfFront(v: string) {
    forall k :: 0 <= k < |v| ==> !Agree(v[k..], MARK)
  }

  /** What stands at the front of a rewritten text stood there before. */
  lemma {:induction false} FrontIsOld(text: string, value: string, u: string)
    requires ClearOfFront(u) && u <= Replace(text, value)
    ensures u <= text
  {
    assert u[0..] == u;
    if u != "" && value != "" && |text| >= |value| && !(value <= text) {
      assert Replace(text, value)[1..] == Replace(text[1..], value);
      assert u[1..] <= Replace(text[1..], value);
      assert forall k :: 0 <= k < |u[1..]| ==> u[1..][k..] == u[k + 1..];
      FrontIsOld(text[1..], value, u[1..]);
      assert u == [u[0]] + u[1..] && text == [text[0]] + text[1..];
    }
  }

  lemma OverMark(rest: string, v: string, i: nat)
    requires i < |MARK|
    ensures v <= (MARK + rest)[i..] ==> Agree(v, MARK[i..])
  {
    assert (MARK + rest)[i..] == MARK[i..] + rest;
  }

  lemma BeforeMark(c: char, rest: string, v: string)
    requires v <= [c] + (MARK + rest)
    ensures |v| > 1 ==> Agree(v[1..], MARK)
  {
    assert ([c] + (MARK + rest))[1..] == MARK + rest;
  }

  lemma OccursPastMark(rest: string, v: string)
    requires Clear(v) && Occurs(v, MARK + rest)
    ensures Occurs(v, rest)
  {
    var i :| 0 <= i <= |MARK + rest| && v <= (MARK + rest)[i..];
    if i < |MARK| {
      OverMark(rest, v, i);
    } else {
      assert (MARK + rest)[i..] == rest[i - |MARK|..];
    }
  }

  lemma {:induction false} SpreadOccurrenceIsOld(text: string, v: string)
    requires Clear(v) && Occurs(v, Spread(text))
    ensures Occurs(v, text)
  {
    hide Occurs;
    var rest := if text == "" then "" else [text[0]] + Spread(text[1..]);
    OccursPastMark(rest, v);
    if text == "" {
      OccursFits(v, rest);
    } else {
      assert rest[1..] == Spread(text[1..]);
      OccursInFront(v, rest);
      if v <= rest {
        BeforeMark(text[0], if text[1..] == "" then "" else [text[1]] + Spread(text[1..][1..]), v);
        PrefixOccurs(v, text);
      } else {
        SpreadOccurrenceIsOld(text[1..], v);
        OccursInTail(v, text, 1);
      }
    }
  }

  /** An occurrence after a replacement was there before, and is not of the
      replaced value. */
  lemma {:induction false} OccurrenceIsOld(text: string, value: string, v: string)
    requires Clear(v) && Occurs(v, Replace(text, value))
    ensures Occurs(v, text) && v != value
  {
    hide Occurs, ClearOfFront, Agree;
    var r := Replace(text, value);
    if value == "" {
      SpreadOccurrenceIsOld(text, v);
    } else if |text| < |value| {
      OccursFits(v, text);
    } else if value <= text {
      var tail := text[|value|..];
      OccursPastMark(Replace(tail, value), v);
      OccurrenceIsOld(tail, value, v);
      OccursInTail(v, text, |value|);
    } else {
      assert r[1..] == Replace(text[1..], value);
      OccursInFront(v, r);
      if v <= r {
        FrontIsOld(text, value, v);
        PrefixOccurs(v, text);
      } else {
        OccurrenceIsOld(text[1..], value, v);
        OccursInTail(v, text, 1);
      }
    }
  }

  lemma {:induction false} AllAreGone(text: string, values: seq<string>, v: string)
    requires v in values && Clear(v)
    ensures !Occurs(v, ReplaceAll(text, values))
  {
    var front, last := values[..|values| - 1], values[|values| - 1];
    if Occurs(v, ReplaceAll(text, values)) {
      OccurrenceIsOld(ReplaceAll(text, front), last, v);
      assert v in front;
      AllAreGone(text, front, v);
      assert false;
    }
  }

  // ----- The condition is exact, value by value -----

  function Repeat(c: char, n: nat): string {
    seq(n, i requires 0 <= i < n => c)
  }

  function Besides(x: char, y: char, z: char): (c: char)
    ensures c != x && c != y && c != z
  {
    if 'a' !in {x, y, z} then 'a' else if 'b' !in {x, y, z} then 'b' else if 'c' !in {x, y, z} then 'c' else 'd'
  }

  lemma PlantedIsNotAhead(a: string, c: char, d: char, m: nat, b: string)
    requires c != d && 0 < |a| <= m
    ensures var w := [c] + Repeat(d, m); !(w <= a + w + b)
  {
    var w := [c] + Repeat(d, m);
    assert (a + w + b)[|a|] == c && w[|a|] == d;
  }

  lemma ReplaceAtFront(w: string, b: string)
    requires |b| < |w|
    ensures Replace(w + b, w) == MARK + b
  {
    assert (w + b)[|w|..] == b && w <= w + b;
    assert Replace(b, w) == b;
  }

  lemma ReplaceBehind(c: char, rest: string, w: string)
    requires 0 < |w| <= |rest| && !(w <= [c] + rest)
    ensures Replace([c] + rest, w) == [c] + Replace(rest, w)
  {
    assert ([c] + rest)[1..] == rest;
  }

  /** A long word is found where it was planted and nowhere before. */
  lemma {:induction false} PlantedIsReplaced(a: string, w: string, b: string)
    requires |b| < |w|
    requires forall k :: 0 <= k < |a| ==> !(w <= a[k..] + w + b)
    ensures Replace(a + w + b, w) == a + MARK + b
  {
    hide Replace;
    if a == "" {
      ReplaceAtFront(w, b);
      assert a + w + b == w + b && a + MARK + b == MARK + b;
    } else {
      var rest := a[1..] + w + b;
      assert a == [a[0]] + a[1..] && a[0..] == a;
      assert a + w + b == [a[0]] + rest && a + MARK + b == [a[0]] + (a[1..] + MARK + b);
      ReplaceBehind(a[0], rest, w);
      assert forall k :: 0 <= k < |a[1..]| ==> a[1..][k..] == a[k + 1..];
      PlantedIsReplaced(a[1..], w, b);
    }
  }

  /** The planted word keeps a shorter value out of the text. */
  lemma PlantedIsAbsent(a: string, c: char, d: char, b: string, v: string)
    requires v != "" && |a| < |v| && |b| < |v|
    requires c != v[0] && d != v[0] && c != v[|v| - 1] && d != v[|v| - 1]
    ensures !Occurs(v, a + ([c] + Repeat(d, |v|)) + b)
  {
    var w := [c] + Repeat(d, |v|);
    var text := a + w + b;
    assert forall k :: |a| <= k < |a| + |w| ==> text[k] == w[k - |a|] && (text[k] == c || text[k] == d);
    forall i | 0 <= i <= |text| ensures !(v <= text[i..]) {
      if i < |a| {
        assert |v| <= |text[i..]| ==> text[i..][|v| - 1] == text[i + |v| - 1];
      } else if i < |a| + |w| {
        assert text[i..][0] == text[i];
      }
    }
  }

  /** A marker between `a` and `b` that puts the value together again can be
      brought about by a second value in the list. */
  lemma CanSurvive(v: string, a: string, b: string) returns (values: seq<string>, text: string)
    requires v != "" && |a| < |v| && |b| < |v| && Occurs(v, a + MARK + b)
    ensures v in values && Occurs(v, ReplaceAll(text, values))
  {
    var c := Besides(v[0], v[|v| - 1], v[0]);
    var d := Besides(v[0], v[|v| - 1], c);
    var w := [c] + Repeat(d, |v|);
    values, text := [v, w], a + w + b;
    PlantedIsAbsent(a, c, d, b, v);
    AbsentIsNoMatch(text, v);
    forall k | 0 <= k < |a| ensures !(w <= a[k..] + w + b) {
      PlantedIsNotAhead(a[k..], c, d, |v|, b);
    }
    PlantedIsReplaced(a, w, b);
    assert values[..1] == [v] && [v][..0] == [];
    assert ReplaceAll(text, [v]) == Replace(ReplaceAll(text, []), v);
  }

  ghost predicate AlwaysGone(v: string) {
    forall values: seq<string>, text :: v in values ==> !Occurs(v, ReplaceAll(text, values))
  }

  /** A value is removed from every text by every list that names it, whatever
      else the list holds and in whatever order, exactly when it is clear of the
      marker. */
  lemma AlwaysGoneIff(v: string)
    ensures AlwaysGone(v) <==> Clear(v)
  {
    if Clear(v) {
      forall values: seq<string>, text | v in values ensures !Occurs(v, ReplaceAll(text, values)) {
        AllAreGone(text, values, v);
      }
    } else {
      var values, text := NotClearSurvives(v);
    }
  }

  lemma NotClearSurvives(v: string) returns (values: seq<string>, text: string)
    requires !Clear(v)
    ensures v in values && Occurs(v, ReplaceAll(text, values))
  {
    if v == "" {
      values, text := [""], "";
      PrefixOccurs("", ReplaceAll(text, values));
    } else if k :| 0 <= k < |v| && Agree(v[k..], MARK) {
      var a, b := OverlapInFront(v, k);
      values, text := CanSurvive(v, a, b);
    } else {
      var j :| 0 <= j < |MARK| && Agree(v, MARK[j..]);
      var b := OverlapBehind(v, j);
      values, text := CanSurvive(v, "", b);
    }
  }

  lemma OverlapInFront(v: string, k: nat) returns (a: string, b: string)
    requires k < |v| && Agree(v[k..], MARK)
    ensures |a| < |v| && |b| < |v| && Occurs(v, a + MARK + b)
  {
    a, b := v[..k], if |v| - k > |MARK| then v[k + |MARK|..] else "";
    assert v == a + v[k..];
    assert v[k..] <= MARK + b;
    assert a + MARK + b == a + (MARK + b);
    PrefixOccurs(v, a + MARK + b);
  }

  lemma OverlapBehind(v: string, j: nat) returns (b: string)
    requires v != "" && j < |MARK| && Agree(v, MARK[j..])
    ensures |b| < |v| && Occurs(v, "" + MARK + b)
  {
    b := if |v| > |MARK| - j then v[|MARK| - j..] else "";
    assert "" + MARK + b == MARK + b && (MARK + b)[j..] == MARK[j..] + b;
    assert v <= MARK[j..] + b;
    OccursInTail(v, MARK + b, j) by {
      PrefixOccurs(v, MARK[j..] + b);
    }
  }

  // ----- Values without brackets -----

  predicate BracketFree(v: string) {
    '[' !in v && ']' !in v
  }

  lemma BracketFreeIsClear(v: string)
    requires BracketFree(v) && !Occurs(v, WORD)
    ensures Clear(v)
  {
    assert MARK[0] == '[' && MARK[9] == ']' && MARK[1..9] == WORD;
    assert "" <= WORD[0..];
    forall k | 0 <= k < |v| ensures !Agree(v[k..], MARK) {
      assert v[k..][0] == v[k] && v[k] in v;
    }
    forall j | 0 <= j < |MARK| ensures !Agree(v, MARK[j..]) {
      InMarkIsInWord(v, j);
    }
  }

  lemma InMarkIsInWord(v: string, j: nat)
    requires BracketFree(v) && v != "" && j < |MARK|
    ensures Agree(v, MARK[j..]) ==> Occurs(v, WORD)
  {
    var tail := MARK[j..];
    assert tail[|tail| - 1] == ']' && MARK[0] == '[' && v[0] in v;
    assert |tail| <= |v| ==> v[|tail| - 1] in v;
    if v <= tail && |v| < |tail| && j > 0 {
      assert forall k :: 0 <= k < |v| ==> v[k] == MARK[j + k] == WORD[j - 1 + k];
      assert v <= WORD[j - 1..];
    }
  }

  lemma OccursTransitive(a: string, b: string, c: string)
    requires Occurs(a, b) && Occurs(b, c)
    ensures Occurs(a, c)
  {
    var i :| 0 <= i <= |b| && a <= b[i..];
    var j :| 0 <= j <= |c| && b <= c[j..];
    assert a <= c[i + j..];
  }

  /** Started on the value itself, the text ends up holding a marker. */
  lemma {:induction false} MarkerStays(values: seq<string>, v: string)
    ensures ReplaceAll(v, values) == v || Occurs(MARK, ReplaceAll(v, values))
    ensures v in values ==> Occurs(MARK, ReplaceAll(v, values))
  {
    if values != [] {
      var front, last := values[..|values| - 1], values[|values| - 1];
      MarkerStays(front, v);
      AbsentIsNoMatch(ReplaceAll(v, front), last);
      if v in values && v !in front {
        assert v == last && v <= v[0..];
      }
    }
  }

  ghost predicate Complete(values: seq<string>) {
    forall text, v :: v in values ==> !Occurs(v, ReplaceAll(text, values))
  }

  /** Among lists of bracket-free values, in any order, exactly those are always
      removed completely that hold no part of the marker's own word. */
  lemma CompleteIff(values: seq<string>)
    requires forall v :: v in values ==> BracketFree(v)
    ensures Complete(values) <==> forall v :: v in values ==> !Occurs(v, WORD)
  {
    if forall v :: v in values ==> !Occurs(v, WORD) {
      forall text, v | v in values ensures !Occurs(v, ReplaceAll(text, values)) {
        BracketFreeIsClear(v);
        AllAreGone(text, values, v);
      }
    }
    if v :| v in values && Occurs(v, WORD) {
      MarkerStays(values, v);
      assert WORD <= MARK[1..];
      OccursTransitive(v, WORD, MARK);
      OccursTransitive(v, MARK, ReplaceAll(v, values));
    }
  }

  /** Outside the bracket-free lists the marker's word is not the only danger: a
      value that reaches into a marker can appear when a later one is replaced. */
  lemma BracketsCanSurvive()
    ensures !Occurs("x[", WORD) && Occurs("x[", ReplaceAll("xa", ["x[", "a"]))
  {
    assert ["x[", "a"][..1] == ["x["] && "xa"[1..] == "a" && "a"[1..] == "";
    assert ["x["][..0] == [] && ReplaceAll("xa", []) == "xa";
    assert "xa"[1] != "x["[1] && Replace("xa", "x[") == "x" + Replace("a", "x[") == "xa";
    assert ReplaceAll("xa", ["x["]) == Replace(ReplaceAll("xa", []), "x[");
    assert Replace("xa", "a") == "x" + Replace("a", "a") == "x" + MARK;
    PrefixOccurs("x[", "x" + MARK);
  }

  /** The values the probe collects are trimmed, distinct and long enough. */
  lemma {:induction false} SensitiveShape(values: seq<Option<string>>, v: string)
    ensures NoDuplicates(SensitiveOf(values))
    ensures v in SensitiveOf(values) <==> |v| >= MIN_LENGTH && exists i :: 0 <= i < |values| && Cleaned(values[i]) == v
  {
    if values != [] {
      var front := values[..|values| - 1];
      SensitiveShape(front, v);
      SensitiveShape(front, Cleaned(values[|values| - 1]));
      if i :| 0 <= i < |values| && Cleaned(values[i]) == v && i != |values| - 1 {
        assert front[i] == values[i];
      }
    }
  }

  /** End to end: none of the collected values survives in the rendered report. */
  lemma RenderedReportIsClean(dump: Option<nat> -> string, values: seq<Option<string>>, count: nat, v: string)
    requires v in SensitiveOf(values) && Clear(v)
    ensures !Occurs(v, ReplaceAll(dump(Some(count)), SensitiveOf(values)))
  {
    AllAreGone(dump(Some(count)), SensitiveOf(values), v);
  }

  // ----- What replacing, counting and collecting mean -----

  lemma StepAtFront(text: string, value: string)
    requires value != "" && value <= text
    ensures Replace(text, value) == MARK + Replace(text[|value|..], value)
    ensures Matches(text, value) == 1 + Matches(text[|value|..], value)
  {
  }

  lemma StepBehind(text: string, value: string)
    requires value != "" && |value| <= |text| && !(value <= text)
    ensures Replace(text, value) == [text[0]] + Replace(text[1..], value)
    ensures Matches(text, value) == Matches(text[1..], value)
  {
  }

  /** Replacement happens at the first occurrence and goes on behind it. */
  lemma {:induction false} ReplaceFirst(text: string, value: string, i: nat)
    requires value != "" && i + |value| <= |text| && value <= text[i..]
    requires forall j :: 0 <= j < i ==> !(value <= text[j..])
    ensures Replace(text, value) == text[..i] + MARK + Replace(text[i + |value|..], value)
    ensures Matches(text, value) == 1 + Matches(text[i + |value|..], value)
  {
    hide Replace, Matches;
    assert text[0..] == text;
    if i == 0 {
      StepAtFront(text, value);
      assert text[..0] + MARK == MARK;
    } else {
      var rest, behind := text[1..], text[i + |value|..];
      assert rest[i - 1..] == text[i..] && rest[i - 1 + |value|..] == behind;
      assert forall j :: 0 <= j < i - 1 ==> rest[j..] == text[j + 1..];
      ReplaceFirst(rest, value, i - 1);
      StepBehind(text, value);
      assert text[..i] == [text[0]] + rest[..i - 1];
      Prepend(text[0], rest[..i - 1], MARK, Replace(behind, value));
    }
  }

  lemma Prepend(c: char, a: string, b: string, d: string)
    ensures [c] + (a + b + d) == ([c] + a) + b + d
  {
  }

  lemma {:induction false} SpreadLength(text: string)
    ensures |Spread(text)| == 11 * |text| + 10 && Matches(text, "") == |text| + 1
  {
    if text != "" {
      SpreadLength(text[1..]);
    }
  }

  lemma SliceBehind(a: string, b: string, k: nat)
    requires k + 10 <= |b|
    ensures (a + b)[|a| + k..|a| + k + 10] == b[k..k + 10]
    ensures k + 10 < |b| ==> (a + b)[|a| + k + 10] == b[k + 10]
  {
  }

  lemma SpreadStep(text: string)
    requires text != ""
    ensures Spread(text) == (MARK + [text[0]]) + Spread(text[1..])
  {
  }

  /** Replacing nothing puts a marker before every character and at the end. */
  lemma {:induction false} SpreadMeans(text: string, i: nat)
    requires i <= |text|
    ensures |Spread(text)| == 11 * |text| + 10
    ensures Spread(text)[11 * i..11 * i + 10] == MARK && (i < |text| ==> Spread(text)[11 * i + 10] == text[i])
  {
    SpreadLength(text);
    if text == "" {
      assert Spread(text) == MARK && MARK[0..10] == MARK;
    } else {
      SpreadLength(text[1..]);
      SpreadStep(text);
      hide Spread;
      var head, rest := MARK + [text[0]], Spread(text[1..]);
      if i == 0 {
        assert head[0..10] == MARK && (head + rest)[0..10] == head[0..10];
      } else {
        SpreadMeans(text[1..], i - 1);
        SliceBehind(head, rest, 11 * (i - 1));
      }
    }
  }

  /** Each counted match takes the value out of the text and puts a marker in. */
  lemma {:induction false} MatchesMeasure(text: string, value: string)
    ensures |Replace(text, value)| + Matches(text, value) * |value| == |text| + 10 * Matches(text, value)
  {
    if value == "" {
      SpreadLength(text);
    } else if |text| >= |value| {
      if value <= text {
        MatchesMeasure(text[|value|..], value);
        assert (1 + Matches(text[|value|..], value)) * |value| == |value| + Matches(text[|value|..], value) * |value|;
      } else {
        MatchesMeasure(text[1..], value);
      }
    }
  }

  /** The values are replaced in the order of the list, and counted as they go. */
  lemma {:induction false} FirstValueFirst(text: string, v: string, rest: seq<string>)
    ensures ReplaceAll(text, [v] + rest) == ReplaceAll(Replace(text, v), rest)
    ensures AllMatches(text, [v] + rest) == Matches(text, v) + AllMatches(Replace(text, v), rest)
  {
    hide Replace, Matches;
    if rest == [] {
      assert [v] + rest == [v] && [v][..0] == [];
      assert ReplaceAll(text, []) == text && AllMatches(text, []) == 0;
    } else {
      var front, last := rest[..|rest| - 1], rest[|rest| - 1];
      FirstValueFirst(text, v, front);
      assert ([v] + rest)[..|rest|] == [v] + front && ([v] + rest)[|rest|] == last;
    }
  }

  /** A missing value is empty; a present one loses the spaces at its ends. */
  lemma CleanedMeans(value: Option<string>)
    ensures match value
            case None => Cleaned(value) == ""
            case Some(text) => exists i: nat, j: nat :: TextBasics.StrippedAt(text, Cleaned(value), i, j)
  {
    if value.Some? {
      var i, j := TextBasics.StripMeans(value.value);
      assert TextBasics.StrippedAt(value.value, Cleaned(value), i, j);
    }
  }

  /** The values are collected in the order in which they first come. */
  lemma {:induction false} SensitiveGrows(values: seq<Option<string>>, more: seq<Option<string>>)
    ensures SensitiveOf(values) <= SensitiveOf(values + more)
  {
    hide Cleaned;
    if more == [] {
      assert values + more == values;
    } else {
      SensitiveGrows(values, more[..|more| - 1]);
      assert (values + more)[..|values + more| - 1] == values + more[..|more| - 1];
    }
  }
}
