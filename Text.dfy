/**
 * The few Python `str` operations the meal planner relies on, over `string`
 * (`seq<char>`): `isspace`, `strip`, `lower`, `capitalize`, `split` on one
 * character, `sep.join(...)` and the ordinal `<` used by `sorted`.
 * Case mapping is restricted to ASCII letters.
 */
module Text {

  datatype Option<T> = None | Some(value: T)

  /** No element occurs twice. */
  predicate NoDup<T(==)>(s: seq<T>) {
    forall i, j :: 0 <= i < j < |s| ==> s[i] != s[j]
  }

  /** A prefix one element longer is the prefix with that element appended. */
  lemma TakeOneMore<T>(s: seq<T>, j: int)
    requires 0 <= j < |s|
    ensures s[..j + 1] == s[..j] + [s[j]]
  {
  }

  /** The prefix of full length is the sequence itself. */
  lemma TakeAll<T>(s: seq<T>)
    ensures s[..|s|] == s
  {
  }

  // ---------------------------------------------------------------------
  // Whitespace and strip

  /** Python's `str.isspace` for one character. */
  predicate IsSpace(c: char) {
    || c == ' '
    || ('\t' <= c <= '\r')
    || ('\U{1C}' <= c <= '\U{1F}')
    || c == '\U{85}' || c == '\U{A0}' || c == '\U{1680}'
    || ('\U{2000}' <= c <= '\U{200A}')
    || c == '\U{2028}' || c == '\U{2029}' || c == '\U{202F}' || c == '\U{205F}'
    || c == '\U{3000}'
  }

  predicate AllSpace(s: string) {
    forall i :: 0 <= i < |s| ==> IsSpace(s[i])
  }

  /** `s.lstrip()`. */
  function StripStart(s: string): (r: string)
    ensures |r| <= |s|
    ensures r == [] || !IsSpace(r[0])
  {
    if s != [] && IsSpace(s[0]) then StripStart(s[1..]) else s
  }

  /** `s.rstrip()`. */
  function StripEnd(s: string): (r: string)
    ensures |r| <= |s|
    ensures r == [] || !IsSpace(r[|r| - 1])
    ensures s != [] && !IsSpace(s[0]) ==> r != [] && r[0] == s[0]
  {
    if s != [] && IsSpace(s[|s| - 1]) then StripEnd(s[..|s| - 1]) else s
  }

  /** Python's `str.strip()` with no argument. */
  function Strip(s: string): (r: string)
    ensures |r| <= |s|
    ensures r == [] || (!IsSpace(r[0]) && !IsSpace(r[|r| - 1]))
  {
    StripEnd(StripStart(s))
  }

  /** `lstrip()` drops a whitespace prefix and keeps the rest. */
  lemma {:induction false} StripStartSuffix(s: string)
    ensures StripStart(s) == s[|s| - |StripStart(s)|..]
    ensures AllSpace(s[..|s| - |StripStart(s)|])
  {
    if s != [] && IsSpace(s[0]) {
      var t := s[1..];
      StripStartSuffix(t);
      var r := StripStart(t);
      assert t[|t| - |r|..] == s[|s| - |r|..];
      assert s[..|s| - |r|] == [s[0]] + t[..|t| - |r|];
    }
  }

  /** `rstrip()` drops a whitespace suffix and keeps the rest. */
  lemma {:induction false} StripEndPrefix(s: string)
    ensures StripEnd(s) == s[..|StripEnd(s)|]
    ensures AllSpace(s[|StripEnd(s)|..])
  {
    if s != [] && IsSpace(s[|s| - 1]) {
      var t := s[..|s| - 1];
      StripEndPrefix(t);
      var r := StripEnd(t);
      assert t[..|r|] == s[..|r|];
      assert s[|r|..] == t[|r|..] + [s[|s| - 1]];
    }
  }

  /** `strip()` cuts whitespace off both ends and nothing else. */
  lemma StripSlice(s: string)
    ensures exists i, j :: 0 <= i <= j <= |s| && Strip(s) == s[i..j] && AllSpace(s[..i]) && AllSpace(s[j..])
  {
    var t := StripStart(s);
    var r := StripEnd(t);
    StripStartSuffix(s);
    StripEndPrefix(t);
    var i := |s| - |t|;
    var j := i + |r|;
    assert r == s[i..j];
    forall k | 0 <= k < |s| - j ensures s[j..][k] == t[|r|..][k] {
      assert s[j + k] == t[|r| + k];
    }
    assert s[j..] == t[|r|..];
  }

  /** No whitespace at either end: what `strip()` returns. */
  predicate Stripped(s: string) {
    s == [] || (!IsSpace(s[0]) && !IsSpace(s[|s| - 1]))
  }

  /** `strip()` leaves a stripped string alone, so it is idempotent. */
  lemma StripStripped(s: string)
    requires Stripped(s)
    ensures Strip(s) == s
  {
    assert StripStart(s) == s;
  }

  /** `strip()` only removes characters: one absent from `s` is absent from the result. */
  lemma StripKeepsOut(s: string, c: char)
    requires c !in s
    ensures c !in Strip(s)
  {
    var r := Strip(s);
    StripSlice(s);
    var i, j :| 0 <= i <= j <= |s| && r == s[i..j] && AllSpace(s[..i]) && AllSpace(s[j..]);
    forall k | 0 <= k < |r| ensures r[k] != c {
      assert r[k] == s[i + k];
    }
  }

  // ---------------------------------------------------------------------
  // Case mapping (ASCII)

  function LowerChar(c: char): char {
    if 'A' <= c <= 'Z' then (c as int + 32) as char else c
  }

  function UpperChar(c: char): char {
    if 'a' <= c <= 'z' then (c as int - 32) as char else c
  }

  /** Python's `str.lower()` on ASCII letters. */
  function Lower(s: string): (r: string)
    ensures |r| == |s|
    ensures forall i :: 0 <= i < |s| ==> r[i] == LowerChar(s[i])
  {
    seq(|s|, i requires 0 <= i < |s| => LowerChar(s[i]))
  }

  /** Python's `str.capitalize()` on ASCII letters: first character upper, the rest lower. */
  function Capitalize(s: string): (r: string)
    ensures |r| == |s|
    ensures s != [] ==> r[0] == UpperChar(s[0])
    ensures forall i :: 0 < i < |s| ==> r[i] == LowerChar(s[i])
  {
    if s == [] then [] else [UpperChar(s[0])] + Lower(s[1..])
  }

  /** A string without upper-case ASCII letters is what `lower()` returns. */
  predicate IsLowered(s: string) {
    forall i :: 0 <= i < |s| ==> !('A' <= s[i] <= 'Z')
  }

  lemma LowerIsLowered(s: string)
    ensures IsLowered(Lower(s))
    ensures Lower(Lower(s)) == Lower(s)
  {
  }

  /** On a lowered key, `capitalize` loses nothing: lowering its result gives the key back. */
  lemma LowerCapitalize(k: string)
    requires IsLowered(k)
    ensures Lower(Capitalize(k)) == k
  {
    var c := Capitalize(k);
    forall i | 0 <= i < |k| ensures Lower(c)[i] == k[i] {
      if i == 0 {
        assert LowerChar(UpperChar(k[0])) == k[0];
      }
    }
  }

  /** Two distinct lowered keys never capitalize to the same display name. */
  lemma CapitalizeInjective(k1: string, k2: string)
    requires IsLowered(k1) && IsLowered(k2)
    ensures Capitalize(k1) == Capitalize(k2) <==> k1 == k2
  {
    if Capitalize(k1) == Capitalize(k2) {
      LowerCapitalize(k1);
      LowerCapitalize(k2);
    }
  }

  // ---------------------------------------------------------------------
  // Find, split and join

  /** Index of the first occurrence of `c` in `s` (`s.find(c)`, with `None` for -1). */
  function Find(s: string, c: char): (r: Option<nat>)
    ensures r.None? <==> c !in s
    ensures r.Some? ==> r.value < |s| && s[r.value] == c && c !in s[..r.value]
  {
    if s == [] then None
    else if s[0] == c then Some(0)
    else match Find(s[1..], c)
      case None => None
      case Some(i) => Some(i + 1)
  }

  /** Python's `s.split(sep)` for a one-character separator. */
  function Split(s: string, sep: char): (parts: seq<string>)
    ensures |parts| >= 1
    ensures forall p :: p in parts ==> sep !in p
    decreases |s|
  {
    match Find(s, sep)
    case None => [s]
    case Some(i) => [s[..i]] + Split(s[i + 1..], sep)
  }

  /** The summed length of some strings. */
  function TotalLength(parts: seq<string>): nat {
    if parts == [] then 0 else |parts[0]| + TotalLength(parts[1..])
  }

  /** Python's `sep.join(parts)`: the parts, with one separator between each two. */
  function Join(parts: seq<string>, sep: string): (r: string)
    ensures parts == [] ==> r == []
    ensures |parts| >= 1 ==> |r| == TotalLength(parts) + (|parts| - 1) * |sep|
  {
    if parts == [] then ""
    else if |parts| == 1 then parts[0]
    else parts[0] + sep + Join(parts[1..], sep)
  }

  /** Joining a part in front of at least one other part puts a separator between them. */
  lemma JoinCons(head: string, rest: seq<string>, sep: string)
    requires |rest| >= 1
    ensures Join([head] + rest, sep) == head + sep + Join(rest, sep)
  {
    assert ([head] + rest)[1..] == rest;
  }

  /** The first separator of `a + [sep] + b` is the one after `a` when `a` has none. */
  lemma {:induction false} FindAfterPrefix(a: string, sep: char, b: string)
    requires sep !in a
    ensures Find(a + [sep] + b, sep) == Some(|a|)
  {
    if a != [] {
      FindAfterPrefix(a[1..], sep, b);
      assert (a + [sep] + b)[1..] == a[1..] + [sep] + b;
    }
  }

  /** Splitting `a + [sep] + b` yields `a` first when `a` holds no separator. */
  lemma SplitCons(a: string, sep: char, b: string)
    requires sep !in a
    ensures Split(a + [sep] + b, sep) == [a] + Split(b, sep)
  {
    var s := a + [sep] + b;
    FindAfterPrefix(a, sep, b);
    assert s[..|a|] == a && s[|a| + 1..] == b;
  }

  /** Joining parts that do not hold the separator and splitting again gives the parts back. */
  lemma {:induction false} SplitJoin(parts: seq<string>, sep: char)
    requires |parts| >= 1
    requires forall p :: p in parts ==> sep !in p
    ensures Split(Join(parts, [sep]), sep) == parts
  {
    if |parts| > 1 {
      var rest := parts[1..];
      assert parts == [parts[0]] + rest;
      assert forall p :: p in rest ==> p in parts;
      SplitJoin(rest, sep);
      JoinCons(parts[0], rest, [sep]);
      assert parts[0] + [sep] + Join(rest, [sep]) == Join(parts, [sep]);
      SplitCons(parts[0], sep, Join(rest, [sep]));
    }
  }

  /** Splitting at every separator and joining again gives the string back. */
  lemma {:induction false} JoinSplit(s: string, sep: char)
    ensures Join(Split(s, sep), [sep]) == s
    decreases |s|
  {
    match Find(s, sep)
    case None =>
    case Some(i) =>
      JoinSplit(s[i + 1..], sep);
      assert Split(s, sep) == [s[..i]] + Split(s[i + 1..], sep);
      JoinCons(s[..i], Split(s[i + 1..], sep), [sep]);
      assert s == s[..i] + [sep] + s[i + 1..];
  }

  /** A join starts with its first part. */
  lemma JoinStartsWithFirst(parts: seq<string>, sep: string)
    requires |parts| >= 1
    ensures |Join(parts, sep)| >= |parts[0]|
    ensures Join(parts, sep)[..|parts[0]|] == parts[0]
  {
  }

  /** A join ends with its last part. */
  lemma {:induction false} JoinEndsWithLast(parts: seq<string>, sep: string)
    requires |parts| >= 1
    ensures |Join(parts, sep)| >= |parts[|parts| - 1]|
    ensures Join(parts, sep)[|Join(parts, sep)| - |parts[|parts| - 1]|..] == parts[|parts| - 1]
  {
    if |parts| > 1 {
      JoinEndsWithLast(parts[1..], sep);
    }
  }

  // ---------------------------------------------------------------------
  // Ordinal string order (Python compares strings code point by code point)

  /**
   * `a < b` on Python strings: at the first position where they differ the
   * code point of `a` is smaller, or `a` is a proper prefix of `b`.
   */
  function Less(a: string, b: string): (r: bool)
    ensures |a| < |b| && a == b[..|a|] ==> r
    ensures r ==> b != []
    ensures r && a != [] ==> a[0] <= b[0]
  {
    if b == [] then false
    else if a == [] then true
    else if a[0] != b[0] then a[0] < b[0]
    else Less(a[1..], b[1..])
  }

  lemma {:induction false} LessIrreflexive(a: string)
    ensures !Less(a, a)
  {
    if a != [] {
      LessIrreflexive(a[1..]);
    }
  }

  lemma {:induction false} LessAsymmetric(a: string, b: string)
    requires Less(a, b)
    ensures !Less(b, a)
  {
    if a != [] && b != [] && a[0] == b[0] {
      LessAsymmetric(a[1..], b[1..]);
    }
  }

  lemma {:induction false} LessTransitive(a: string, b: string, c: string)
    requires Less(a, b) && Less(b, c)
    ensures Less(a, c)
  {
    if a != [] && a[0] == b[0] && b[0] == c[0] {
      LessTransitive(a[1..], b[1..], c[1..]);
    }
  }

  lemma {:induction false} LessTotal(a: string, b: string)
    ensures a == b || Less(a, b) || Less(b, a)
  {
    if a != [] && b != [] && a[0] == b[0] {
      LessTotal(a[1..], b[1..]);
      if a[1..] == b[1..] {
        assert a == [a[0]] + a[1..] && b == [b[0]] + b[1..];
      }
    }
  }
}
