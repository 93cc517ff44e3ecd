/** Parsed JSON values and the JavaScript string helpers used on them. */
module JsonTree {
  import opened Prelude

  datatype Json =
    | JNull
    | JBool(b: bool)
    | JNumber(n: real)
    | JString(s: string)
    | JArray(items: seq<Json>)
    | JObject(fields: map<string, Json>)

  /** `value?.name`: undefined (None) unless the value is an object with that own field. */
  function Field(value: Json, name: string): Option<Json> {
    if value.JObject? && name in value.fields then Some(value.fields[name]) else None
  }

  const MAX_SAFE_INTEGER: int := 0x1F_FFFF_FFFF_FFFF

  predicate SafeInteger(n: int) {
    -MAX_SAFE_INTEGER <= n <= MAX_SAFE_INTEGER
  }

  /** Below 2^53 in size. */
  lemma SafeIntegersAre(n: int)
    ensures SafeInteger(n) <==> -0x20_0000_0000_0000 < n < 0x20_0000_0000_0000
  {
  }

  /** A safe integer of at least the given size, or the given error. */
  function SafeIntegerFrom<E>(value: Option<Json>, least: nat, error: E): Result<nat, E> {
    match value
    case Some(JNumber(n)) =>
      if n == n.Floor as real && SafeInteger(n.Floor) && n.Floor >= least then Ok(n.Floor) else Err(error)
    case _ => Err(error)
  }

  /** The characters `String.prototype.trim` removes. */
  predicate IsSpace(c: char) {
    || '\t' <= c <= '\r'
    || c == ' '
    || c == '\U{A0}' || c == '\U{1680}'
    || '\U{2000}' <= c <= '\U{200A}'
    || c == '\U{2028}' || c == '\U{2029}' || c == '\U{202F}' || c == '\U{205F}' || c == '\U{3000}'
    || c == '\U{FEFF}'
  }

  function TrimStart(s: string): string {
    if s != "" && IsSpace(s[0]) then TrimStart(s[1..]) else s
  }

  function TrimEnd(s: string): string {
    if s != "" && IsSpace(s[|s| - 1]) then TrimEnd(s[..|s| - 1]) else s
  }

  function Trim(s: string): string {
    TrimEnd(TrimStart(s))
  }

  function LowerChar(c: char): char {
    if 'A' <= c <= 'Z' then (c as int + 32) as char else c
  }

  /** `toLowerCase` on ASCII text. */
  function Lower(s: string): string {
    seq(|s|, i requires 0 <= i < |s| => LowerChar(s[i]))
  }

  function UpperChar(c: char): char {
    if 'a' <= c <= 'z' then (c as int - 32) as char else c
  }

  /** `toUpperCase` on ASCII text. */
  function Upper(s: string): string {
    seq(|s|, i requires 0 <= i < |s| => UpperChar(s[i]))
  }

  const WHITE_SPACE :=
    "\t\n\U{B}\U{C}\r \U{A0}\U{1680}\U{2000}\U{2001}\U{2002}\U{2003}\U{2004}\U{2005}\U{2006}\U{2007}\U{2008}\U{2009}"
    + "\U{200A}\U{2028}\U{2029}\U{202F}\U{205F}\U{3000}\U{FEFF}"

  const UPPER_LETTERS := "ABCDEFGHIJKLMNOPQRSTUVWXYZ"
  const LOWER_LETTERS := "abcdefghijklmnopqrstuvwxyz"

  lemma SpacesAre(c: char)
    ensures IsSpace(c) <==> c in WHITE_SPACE
  {
    if IsSpace(c) {
      var i: nat :=
        if '\t' <= c <= '\r' then c as nat - 9 else if c == ' ' then 5 else if c == '\U{A0}' then 6
        else if c == '\U{1680}' then 7 else if '\U{2000}' <= c <= '\U{200A}' then 8 + (c as nat - 0x2000)
        else if c == '\U{2028}' then 19 else if c == '\U{2029}' then 20 else if c == '\U{202F}' then 21
        else if c == '\U{205F}' then 22 else if c == '\U{3000}' then 23 else 24;
      assert |WHITE_SPACE| == 25 && WHITE_SPACE[i] == c;
    }
  }

  ghost predicate Blank(s: string) {
    forall c :: c in s ==> c in WHITE_SPACE
  }

  lemma {:induction false} TrimStartIs(s: string) returns (before: string)
    ensures s == before + TrimStart(s) && Blank(before)
    ensures TrimStart(s) != "" ==> TrimStart(s)[0] !in WHITE_SPACE
  {
    if s != "" && IsSpace(s[0]) {
      SpacesAre(s[0]);
      before := TrimStartIs(s[1..]);
      before := [s[0]] + before;
    } else {
      before := "";
      if s != "" {
        SpacesAre(s[0]);
      }
    }
  }

  lemma {:induction false} TrimEndIs(s: string) returns (after: string)
    ensures s == TrimEnd(s) + after && Blank(after)
    ensures TrimEnd(s) != "" ==> TrimEnd(s)[0] == s[0] && TrimEnd(s)[|TrimEnd(s)| - 1] !in WHITE_SPACE
  {
    if s != "" && IsSpace(s[|s| - 1]) {
      SpacesAre(s[|s| - 1]);
      after := TrimEndIs(s[..|s| - 1]);
      after := after + [s[|s| - 1]];
    } else {
      after := "";
      if s != "" {
        SpacesAre(s[|s| - 1]);
      }
    }
  }

  /** Trimming takes white space off both ends and leaves none there. */
  lemma TrimIs(s: string) returns (before: string, after: string)
    ensures s == before + Trim(s) + after && Blank(before) && Blank(after)
    ensures Trim(s) != "" ==> Trim(s)[0] !in WHITE_SPACE && Trim(s)[|Trim(s)| - 1] !in WHITE_SPACE
  {
    before := TrimStartIs(s);
    after := TrimEndIs(TrimStart(s));
  }

  /** A text without white space at either end. */
  ghost predicate ExactText(s: string) {
    s != "" && s[0] !in WHITE_SPACE && s[|s| - 1] !in WHITE_SPACE
  }

  lemma ExactIff(s: string)
    ensures s != "" && Trim(s) == s <==> ExactText(s)
  {
    if s != "" {
      SpacesAre(s[0]);
      SpacesAre(s[|s| - 1]);
      hide IsSpace;
      var before, after := TrimIs(s);
    }
  }

  lemma BlankIff(s: string)
    ensures Trim(s) == "" <==> Blank(s)
  {
    var before, after := TrimIs(s);
    if Trim(s) != "" {
      assert s[|before|] == Trim(s)[0];
    }
  }

  lemma UpperLettersAre(c: char)
    ensures forall k :: 0 <= k < 26 ==> UPPER_LETTERS[k] as int == 65 + k
    ensures c in UPPER_LETTERS <==> 'A' <= c <= 'Z'
  {
    if 'A' <= c <= 'Z' {
      assert UPPER_LETTERS[c as int - 65] == c;
    }
  }

  lemma LowerLettersAre(c: char)
    ensures forall k :: 0 <= k < 26 ==> LOWER_LETTERS[k] as int == 97 + k
    ensures c in LOWER_LETTERS <==> 'a' <= c <= 'z'
  {
    if 'a' <= c <= 'z' {
      assert LOWER_LETTERS[c as int - 97] == c;
    }
  }

  /** Only the letters change, each to its counterpart. */
  ghost predicate Recased(from: string, to: string, c: char, d: char) {
    if c in from then exists k :: 0 <= k < |from| == |to| && c == from[k] && d == to[k] else d == c
  }

  lemma LowerIs(s: string)
    ensures |Lower(s)| == |s|
    ensures forall i :: 0 <= i < |s| ==> Recased(UPPER_LETTERS, LOWER_LETTERS, s[i], Lower(s)[i])
  {
    forall i | 0 <= i < |s| ensures Recased(UPPER_LETTERS, LOWER_LETTERS, s[i], LowerChar(s[i])) {
      UpperLettersAre(s[i]);
      LowerLettersAre(s[i]);
    }
  }

  lemma UpperIs(s: string)
    ensures |Upper(s)| == |s|
    ensures forall i :: 0 <= i < |s| ==> Recased(LOWER_LETTERS, UPPER_LETTERS, s[i], Upper(s)[i])
  {
    forall i | 0 <= i < |s| ensures Recased(LOWER_LETTERS, UPPER_LETTERS, s[i], UpperChar(s[i])) {
      UpperLettersAre(s[i]);
      LowerLettersAre(s[i]);
    }
  }

  lemma LowerTwice(s: string)
    ensures Lower(Lower(s)) == Lower(s)
  {
  }

  /** `Array.prototype.join`. */
  function Join(values: seq<string>, separator: string): string {
    if values == [] then ""
    else if |values| == 1 then values[0]
    else values[0] + separator + Join(values[1..], separator)
  }

  /** `String.prototype.split` at a single character. */
  function Split(s: string, at: char): (pieces: seq<string>)
    ensures |pieces| >= 1
  {
    if s == "" then [""]
    else if s[0] == at then [""] + Split(s[1..], at)
    else
      var rest := Split(s[1..], at);
      [[s[0]] + rest[0]] + rest[1..]
  }

  lemma {:induction false} SplitPiece(piece: string, rest: string, at: char)
    requires at !in piece
    ensures Split(piece + [at] + rest, at) == [piece] + Split(rest, at)
  {
    var all := piece + [at] + rest;
    if piece == "" {
      assert all[1..] == rest;
    } else {
      SplitPiece(piece[1..], rest, at);
      assert all[1..] == piece[1..] + [at] + rest;
      assert [piece[0]] + piece[1..] == piece;
    }
  }

  lemma {:induction false} SplitWhole(piece: string, at: char)
    requires at !in piece
    ensures Split(piece, at) == [piece]
  {
    if piece != "" {
      SplitWhole(piece[1..], at);
      assert [piece[0]] + piece[1..] == piece;
    }
  }

  /** The text before the first such character, or all of it. */
  function TextBefore(s: string, at: char): string {
    if s == "" || s[0] == at then "" else [s[0]] + TextBefore(s[1..], at)
  }

  lemma {:induction false} TextBeforeIs(s: string, head: string, tail: string, at: char)
    requires s == head + tail && at !in head && (tail == "" || tail[0] == at)
    ensures TextBefore(s, at) == head
  {
    if head != "" {
      TextBeforeIs(s[1..], head[1..], tail, at);
      assert head == [head[0]] + head[1..];
    }
  }

  lemma {:induction false} TextBeforeSplits(s: string, at: char) returns (tail: string)
    ensures s == TextBefore(s, at) + tail && at !in TextBefore(s, at) && (tail == "" || tail[0] == at)
  {
    if s == "" || s[0] == at {
      tail := s;
    } else {
      tail := TextBeforeSplits(s[1..], at);
      assert s == [s[0]] + s[1..];
    }
  }

  function Occurrences(s: string, at: char): nat {
    if s == "" then 0 else (if s[0] == at then 1 else 0) + Occurrences(s[1..], at)
  }

  lemma {:induction false} SplitCounts(s: string, at: char)
    ensures |Split(s, at)| == Occurrences(s, at) + 1
  {
    if s != "" {
      SplitCounts(s[1..], at);
    }
  }

  lemma {:induction false} OccurrencesConcat(a: string, b: string, at: char)
    ensures Occurrences(a + b, at) == Occurrences(a, at) + Occurrences(b, at)
  {
    if a == "" {
      assert a + b == b;
    } else {
      assert (a + b)[1..] == a[1..] + b;
      OccurrencesConcat(a[1..], b, at);
    }
  }

  lemma {:induction false} OccursIff(s: string, at: char)
    ensures Occurrences(s, at) > 0 <==> at in s
  {
    if s != "" {
      OccursIff(s[1..], at);
      assert at in s <==> s[0] == at || at in s[1..];
    }
  }

  lemma {:induction false} JoinCounts(values: seq<string>, at: char, i: nat)
    requires i < |values|
    ensures Occurrences(Join(values, [at]), at) >= |values| - 1 + Occurrences(values[i], at)
  {
    if |values| > 1 {
      var rest := Join(values[1..], [at]);
      OccurrencesConcat(values[0] + [at], rest, at);
      OccurrencesConcat(values[0], [at], at);
      assert Occurrences([at], at) == 1;
      JoinCounts(values[1..], at, if i == 0 then 0 else i - 1);
    }
  }

  lemma {:induction false} SplitJoinOfClean(values: seq<string>, at: char)
    requires values != [] && forall v :: v in values ==> at !in v
    ensures Split(Join(values, [at]), at) == values
  {
    assert values[0] in values;
    if |values| == 1 {
      SplitWhole(values[0], at);
    } else {
      SplitJoinOfClean(values[1..], at);
      SplitPiece(values[0], Join(values[1..], [at]), at);
    }
  }

  /** Splitting undoes joining exactly when no value holds the separator. */
  lemma SplitOfJoin(values: seq<string>, at: char)
    requires values != []
    ensures Split(Join(values, [at]), at) == values <==> forall v :: v in values ==> at !in v
  {
    if forall v :: v in values ==> at !in v {
      SplitJoinOfClean(values, at);
    } else {
      var i :| 0 <= i < |values| && at in values[i];
      OccursIff(values[i], at);
      JoinCounts(values, at, i);
      SplitCounts(Join(values, [at]), at);
    }
  }

  lemma {:induction false} JoinLast(front: seq<string>, x: string, y: string, separator: string)
    requires Join(front + [x], separator) == Join(front + [y], separator)
    ensures x == y
  {
    if front == [] {
      assert front + [x] == [x] && front + [y] == [y];
    } else {
      var prefix := front[0] + separator;
      var a, b := Join(front[1..] + [x], separator), Join(front[1..] + [y], separator);
      assert (front + [x])[1..] == front[1..] + [x] && (front + [y])[1..] == front[1..] + [y];
      assert prefix + a == prefix + b;
      assert (prefix + a)[|prefix|..] == a && (prefix + b)[|prefix|..] == b;
      JoinLast(front[1..], x, y, separator);
    }
  }
}
