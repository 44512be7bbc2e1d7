/**
 Redaction of audit contexts. Strings are Go strings, one char per byte. A value is
 redacted by the name of its key first, by its type second, by the patterns last.
 */
module Redaction {
  import opened Outcomes

  const REDACTED: string := "[REDACTED]"
  const MIN_PATTERN: nat := 4

  /** Opaque stands for every other Go type; such leaves are passed through. */
  datatype Value =
    | Str(s: string)
    | Bytes(s: string)
    | RawMessage(s: string)
    | Object(fields: map<string, Value>)
    | Array(items: seq<Value>)
    | Opaque(tag: int)

  // ------------------------------------------------------------ string functions

  function LowerChar(c: char): char {
    if 'A' <= c <= 'Z' then c + 32 as char else c
  }

  function ToLower(s: string): (t: string)
    ensures |t| == |s|
  {
    seq(|s|, i requires 0 <= i < |s| => LowerChar(s[i]))
  }

  /** p occurs in s at position i. */
  predicate OccursAt(p: string, s: string, i: nat) {
    i + |p| <= |s| && s[i..i + |p|] == p
  }

  predicate Contains(s: string, p: string) {
    exists i :: 0 <= i <= |s| && OccursAt(p, s, i)
  }

  /** strings.ReplaceAll with the redaction mark: leftmost, non-overlapping. */
  function ReplaceAll(s: string, p: string): string
    requires p != ""
    decreases |s|
  {
    if |s| < |p| then s
    else if s[..|p|] == p then REDACTED + ReplaceAll(s[|p|..], p)
    else [s[0]] + ReplaceAll(s[1..], p)
  }

  predicate Active(p: string) {
    |p| >= MIN_PATTERN
  }

  function RedactAll(s: string, patterns: seq<string>): string {
    if patterns == [] then s
    else
      var t := RedactAll(s, patterns[..|patterns| - 1]);
      var p := patterns[|patterns| - 1];
      if Active(p) then ReplaceAll(t, p) else t
  }

  method RedactPatterns(value: string, patterns: seq<string>) returns (r: string)
    ensures r == RedactAll(value, patterns)
    ensures Redacts(value, patterns, r)
  {
    RedactAllRedacts(value, patterns);
    r := value;
    for i := 0 to |patterns|
      invariant r == RedactAll(value, patterns[..i])
    {
      var p := patterns[i];
      if p != "" && |p| >= MIN_PATTERN {
        r := ReplaceAll(r, p);
      }
      assert patterns[..i + 1][..i] == patterns[..i];
    }
    assert patterns[..|patterns|] == patterns;
  }

  predicate SensitiveKey(key: string, keys: seq<string>) {
    exists i :: 0 <= i < |keys| && Contains(ToLower(key), ToLower(keys[i]))
  }

  /** The two characters differ in case at most. */
  predicate SameLetter(a: char, b: char) {
    a == b || ('A' <= a <= 'Z' && b as int == a as int + 32) || ('A' <= b <= 'Z' && a as int == b as int + 32)
  }

  /** name stands in key at position i, in any case. */
  predicate NamedAt(key: string, name: string, i: nat) {
    i + |name| <= |key| && forall k :: 0 <= k < |name| ==> SameLetter(key[i + k], name[k])
  }

  lemma NamedAtIff(key: string, name: string, i: nat)
    ensures OccursAt(ToLower(name), ToLower(key), i) <==> NamedAt(key, name, i)
  {
    var n, s := ToLower(name), ToLower(key);
    if i + |name| <= |key| {
      assert forall k :: 0 <= k < |name| ==> s[i..i + |n|][k] == LowerChar(key[i + k]) && n[k] == LowerChar(name[k]);
      if OccursAt(n, s, i) {
        forall k | 0 <= k < |name| ensures SameLetter(key[i + k], name[k]) {
          assert s[i..i + |n|][k] == n[k];
        }
      }
      if NamedAt(key, name, i) {
        assert s[i..i + |n|] == n;
      }
    }
  }

  /** A key is sensitive when one of the configured names stands somewhere in it, in any case. */
  lemma SensitiveIff(key: string, keys: seq<string>)
    ensures SensitiveKey(key, keys) <==> exists i, j :: 0 <= i < |keys| && 0 <= j <= |key| && NamedAt(key, keys[i], j)
  {
    forall i, j: nat | 0 <= i < |keys| ensures OccursAt(ToLower(keys[i]), ToLower(key), j) <==> NamedAt(key, keys[i], j) {
      NamedAtIff(key, keys[i], j);
    }
  }

  method IsSensitiveKey(key: string, keys: seq<string>) returns (r: bool)
    ensures r <==> SensitiveKey(key, keys)
    ensures r <==> exists i, j :: 0 <= i < |keys| && 0 <= j <= |key| && NamedAt(key, keys[i], j)
  {
    SensitiveIff(key, keys);
    var lower := ToLower(key);
    for i := 0 to |keys|
      invariant forall k :: 0 <= k < i ==> !Contains(lower, ToLower(keys[k]))
    {
      if Contains(lower, ToLower(keys[i])) {
        return true;
      }
    }
    return false;
  }

  function RedactValue(key: string, v: Value, keys: seq<string>, patterns: seq<string>): Value
    decreases v
  {
    if SensitiveKey(key, keys) then Str(REDACTED)
    else match v
      case Str(s) => Str(RedactAll(s, patterns))
      case Bytes(s) => Str(RedactAll(s, patterns))
      case RawMessage(s) => Str(RedactAll(s, patterns))
      case Object(fields) => Object(map k | k in fields :: RedactValue(k, fields[k], keys, patterns))
      case Array(items) => Array(seq(|items|, i requires 0 <= i < |items| => RedactValue("", items[i], keys, patterns)))
      case Opaque(_) => v
  }

  // ------------------------------------------------------ when a pattern is safe

  /** The pattern and the mark share no text at a border and neither contains the other. */
  predicate NoOverlap(p: string) {
    && !Contains(REDACTED, p) && !Contains(p, REDACTED)
    && (forall k :: 0 < k < |p| && k < |REDACTED| ==> p[..k] != REDACTED[|REDACTED| - k..] && p[|p| - k..] != REDACTED[..k])
  }

  predicate Disjoint(p: string) {
    forall c :: c in p ==> c !in REDACTED
  }

  lemma StartsAbsent(b: string, q: string)
    requires q != "" && q[0] !in b
    ensures !Contains(b, q)
  {
    forall i | 0 <= i <= |b| ensures !OccursAt(q, b, i) {
      if i + |q| <= |b| {
        assert b[i..i + |q|][0] == b[i];
      }
    }
  }

  lemma DisjointHasNoOverlap(p: string)
    requires Disjoint(p) && p != ""
    ensures NoOverlap(p)
  {
    assert p[0] in p && REDACTED[0] in REDACTED;
    StartsAbsent(REDACTED, p);
    StartsAbsent(p, REDACTED);
    forall k | 0 < k < |p| && k < |REDACTED|
      ensures p[..k] != REDACTED[|REDACTED| - k..] && p[|p| - k..] != REDACTED[..k]
    {
      assert p[..k][0] == p[0] && REDACTED[|REDACTED| - k..][0] == REDACTED[|REDACTED| - k];
      assert REDACTED[|REDACTED| - k] in REDACTED;
      assert p[|p| - k..][0] == p[|p| - k] && REDACTED[..k][0] == REDACTED[0];
      assert p[|p| - k] in p && REDACTED[0] in REDACTED;
    }
  }

  lemma SliceOfSlice(s: string, lo: nat, hi: nat, from: nat, to: nat)
    requires lo <= from <= to <= hi <= |s|
    ensures s[lo..hi][from - lo..to - lo] == s[from..to]
  {
    var t := s[lo..hi];
    assert |t[from - lo..to - lo]| == |s[from..to]|;
    forall k | 0 <= k < to - from ensures t[from - lo..to - lo][k] == s[from..to][k] {
      assert t[from - lo + k] == s[from + k];
    }
  }

  /** Two words q and p that stand in one text and touch, q no later than p starts: nested or sharing a border. */
  lemma WordsTouch(s: string, q: string, lo: nat, p: string, i: nat)
    requires OccursAt(q, s, lo) && OccursAt(p, s, i) && lo <= i < lo + |q|
    ensures i + |p| <= lo + |q| ==> OccursAt(p, q, i - lo)
    ensures lo + |q| <= i + |p| ==> q[i - lo..] == p[..lo + |q| - i]
  {
    var hi := lo + |q|;
    if i + |p| <= hi {
      SliceOfSlice(s, lo, hi, i, i + |p|);
    }
    if hi <= i + |p| {
      SliceOfSlice(s, lo, hi, i, hi);
      SliceOfSlice(s, i, i + |p|, i, hi);
    }
  }

  /** An occurrence that touches a mark overlaps it. */
  lemma TouchesMark(p: string, a: string, b: string, i: nat)
    requires OccursAt(p, a + REDACTED + b, i)
    requires |a| < i + |p| && i < |a| + |REDACTED|
    ensures !NoOverlap(p)
  {
    var s, lo := a + REDACTED + b, |a|;
    assert OccursAt(REDACTED, s, lo) by {
      assert s[lo..lo + |REDACTED|] == REDACTED;
    }
    if lo <= i {
      WordsTouch(s, REDACTED, lo, p, i);
      var k := lo + |REDACTED| - i;
      if k < |p| {
        assert p[..k] == REDACTED[|REDACTED| - k..];
        assert i == lo ==> OccursAt(REDACTED, p, 0);
      }
    } else {
      WordsTouch(s, p, i, REDACTED, lo);
      var k := i + |p| - lo;
      if k < |REDACTED| {
        assert p[|p| - k..] == REDACTED[..k];
      }
    }
  }

  // ------------------------------------------------- replacement and occurrences

  lemma OccursLater(p: string, a: string, s: string, i: nat)
    requires |a| <= i && OccursAt(p, a + s, i)
    ensures OccursAt(p, s, i - |a|) && Contains(s, p)
  {
    assert (a + s)[i..i + |p|] == s[i - |a|..i - |a| + |p|];
    assert OccursAt(p, s, i - |a|);
  }

  lemma OccursEarlier(p: string, a: string, s: string, i: nat)
    requires i + |p| <= |a|
    ensures OccursAt(p, a + s, i) <==> OccursAt(p, a, i)
  {
    assert (a + s)[i..i + |p|] == a[i..i + |p|];
  }

  lemma ContainsSuffix(s: string, k: nat, p: string)
    requires k <= |s| && Contains(s[k..], p)
    ensures Contains(s, p)
  {
    var i :| 0 <= i <= |s[k..]| && OccursAt(p, s[k..], i);
    assert s[k..][i..i + |p|] == s[k + i..k + i + |p|];
    assert OccursAt(p, s, k + i);
  }

  lemma TailFree(g: string, s: string, k: nat, p: string)
    requires k <= |s| && !Contains(g + s, p)
    ensures !Contains("" + s[k..], p)
  {
    assert "" + s[k..] == (g + s)[|g| + k..];
    if Contains("" + s[k..], p) {
      ContainsSuffix(g + s, |g| + k, p);
    }
  }

  lemma {:induction false} ReplaceNothing(s: string, p: string)
    requires p != "" && !Contains(s, p)
    ensures ReplaceAll(s, p) == s
    decreases |s|
  {
    if |s| >= |p| {
      assert !OccursAt(p, s, 0);
      if Contains(s[1..], p) {
        ContainsSuffix(s, 1, p);
      }
      ReplaceNothing(s[1..], p);
    }
  }

  /** p is not in a text whose parts on both sides of a mark are free of it. */
  lemma MarkSeparates(p: string, g: string, rest: string)
    requires p != "" && NoOverlap(p) && !Contains(rest, p)
    requires forall i :: 0 <= i && i + |p| <= |g| ==> !OccursAt(p, g, i)
    ensures !Contains(g + REDACTED + rest, p)
  {
    var s := g + REDACTED + rest;
    forall i | 0 <= i <= |s| ensures !OccursAt(p, s, i) {
      if i + |p| <= |g| {
        assert s == g + (REDACTED + rest);
        OccursEarlier(p, g, REDACTED + rest, i);
      } else if OccursAt(p, s, i) {
        if i < |g| + |REDACTED| {
          TouchesMark(p, g, rest, i);
        } else {
          OccursLater(p, g + REDACTED, rest, i);
        }
      }
    }
  }

  /** The text after a replaced occurrence of q. */
  lemma AfterReplaced(g: string, s: string, q: string, p: string)
    requires q != "" && |q| <= |s| && p != "" && NoOverlap(p) && s[..|q|] == q
    requires !Contains(ReplaceAll(s[|q|..], q), p)
    requires forall i :: 0 <= i && i + |p| <= |g| ==> !OccursAt(p, g + s, i)
    ensures !Contains(g + ReplaceAll(s, q), p)
  {
    var rest := ReplaceAll(s[|q|..], q);
    forall i: nat | i + |p| <= |g| ensures !OccursAt(p, g, i) {
      OccursEarlier(p, g, s, i);
    }
    MarkSeparates(p, g, rest);
    assert g + ReplaceAll(s, q) == g + REDACTED + rest;
  }

  /** One character passes from the text to be scanned to the kept text. */
  lemma KeepOne(g: string, s: string, q: string)
    requires q != "" && |q| <= |s| && s[..|q|] != q
    ensures (g + [s[0]]) + s[1..] == g + s && !OccursAt(q, g + s, |g|)
    ensures g + ReplaceAll(s, q) == (g + [s[0]]) + ReplaceAll(s[1..], q)
  {
    Regroup(g, [s[0]], s[1..]);
    assert [s[0]] + s[1..] == s;
    OccursAtStart(q, g, s);
    Regroup(g, [s[0]], ReplaceAll(s[1..], q));
  }

  lemma OccursAtStart(p: string, a: string, s: string)
    requires |p| <= |s|
    ensures OccursAt(p, a + s, |a|) <==> s[..|p|] == p
  {
    assert (a + s)[|a|..|a| + |p|] == s[..|p|];
  }

  /** Replacing another pattern q cannot bring p back. g is the text kept since the last mark. */
  lemma {:induction false} ReplaceKeepsOut(g: string, s: string, q: string, p: string)
    requires q != "" && p != "" && NoOverlap(p) && !Contains(g + s, p)
    ensures !Contains(g + ReplaceAll(s, q), p)
    decreases |s|
  {
    if |s| < |q| {
    } else if s[..|q|] == q {
      TailFree(g, s, |q|, p);
      ReplaceKeepsOut("", s[|q|..], q, p);
      assert "" + ReplaceAll(s[|q|..], q) == ReplaceAll(s[|q|..], q);
      AfterReplaced(g, s, q, p);
    } else {
      KeepOne(g, s, q);
      ReplaceKeepsOut(g + [s[0]], s[1..], q, p);
    }
  }

  predicate NoneStartsIn(g: string, s: string, p: string) {
    forall i :: 0 <= i < |g| ==> !OccursAt(p, s, i)
  }

  lemma NoneAtAll(g: string, s: string, p: string)
    requires |s| < |p| && NoneStartsIn(g, g + s, p)
    ensures !Contains(g + s, p)
  {
    forall i | 0 <= i <= |g + s| ensures !OccursAt(p, g + s, i) {
    }
  }

  lemma OneFurther(g: string, c: char, t: string, p: string)
    requires NoneStartsIn(g, t, p) && !OccursAt(p, t, |g|)
    ensures NoneStartsIn(g + [c], t, p)
  {
  }

  /** Replacing p itself leaves no p. No occurrence starts inside the kept text g. */
  lemma {:induction false} ReplaceRemoves(g: string, s: string, p: string)
    requires p != "" && NoOverlap(p)
    requires NoneStartsIn(g, g + s, p)
    ensures !Contains(g + ReplaceAll(s, p), p)
    decreases |s|
  {
    if |s| < |p| {
      NoneAtAll(g, s, p);
    } else if s[..|p|] == p {
      ReplaceRemoves("", s[|p|..], p);
      assert "" + ReplaceAll(s[|p|..], p) == ReplaceAll(s[|p|..], p);
      AfterReplaced(g, s, p, p);
    } else {
      KeepOne(g, s, p);
      OneFurther(g, s[0], g + s, p);
      ReplaceRemoves(g + [s[0]], s[1..], p);
    }
  }

  /** A configured pattern that is active and clear of the mark is gone, whatever the others and their order. */
  lemma {:induction false} PatternGone(s: string, patterns: seq<string>, p: string)
    requires p in patterns && Active(p) && NoOverlap(p)
    ensures !Contains(RedactAll(s, patterns), p)
  {
    var init, q := patterns[..|patterns| - 1], patterns[|patterns| - 1];
    assert patterns == init + [q];
    var t := RedactAll(s, init);
    if q == p {
      ReplaceRemoves("", t, p);
      assert "" + ReplaceAll(t, p) == ReplaceAll(t, p);
    } else {
      PatternGone(s, init, p);
      if Active(q) {
        assert "" + t == t && "" + ReplaceAll(t, q) == ReplaceAll(t, q);
        ReplaceKeepsOut("", t, q, p);
      }
    }
  }

  // ------------------------------------------------------------ and only then

  /** a and b, put around the mark, complete an occurrence of p at i. */
  predicate Completes(p: string, a: string, b: string, i: nat) {
    && OccursAt(p, a + REDACTED + b, i) && |a| < |p| && |b| < |p|
    && (forall c :: c in a ==> c in p) && (forall c :: c in b ==> c in p)
  }

  lemma AroundWhole(p: string, j: nat)
    requires OccursAt(REDACTED, p, j)
    ensures Completes(p, p[..j], p[j + |REDACTED|..], 0)
  {
    assert p[..j] + REDACTED + p[j + |REDACTED|..] == p;
  }

  lemma AroundPrefix(p: string, k: nat)
    requires 0 < k < |p| && k < |REDACTED| && p[..k] == REDACTED[|REDACTED| - k..]
    ensures Completes(p, "", p[k..], |REDACTED| - k)
  {
    var i, s := |REDACTED| - k, "" + REDACTED + p[k..];
    assert s == REDACTED[..i] + (REDACTED[i..] + p[k..]);
    assert REDACTED[i..] + p[k..] == p;
    assert s[i..i + |p|] == p;
  }

  lemma AroundSuffix(p: string, k: nat)
    requires 0 < k < |p| && k < |REDACTED| && p[|p| - k..] == REDACTED[..k]
    ensures Completes(p, p[..|p| - k], "", 0)
  {
    var s := p[..|p| - k] + REDACTED + "";
    assert s == (p[..|p| - k] + REDACTED[..k]) + REDACTED[k..];
    assert p[..|p| - k] + REDACTED[..k] == p;
    assert s[0..|p|] == p;
  }

  /** A text in which the mark, once inserted, completes an occurrence of p. */
  lemma OverlapWitness(p: string) returns (a: string, b: string, i: nat)
    requires !NoOverlap(p) && p != ""
    ensures Completes(p, a, b, i)
  {
    if Contains(REDACTED, p) {
      i :| 0 <= i <= |REDACTED| && OccursAt(p, REDACTED, i);
      a, b := "", "";
      assert a + REDACTED + b == REDACTED;
    } else if Contains(p, REDACTED) {
      var j :| 0 <= j <= |p| && OccursAt(REDACTED, p, j);
      AroundWhole(p, j);
      a, b, i := p[..j], p[j + |REDACTED|..], 0;
    } else {
      var k :| 0 < k < |p| && k < |REDACTED| && (p[..k] == REDACTED[|REDACTED| - k..] || p[|p| - k..] == REDACTED[..k]);
      if p[..k] == REDACTED[|REDACTED| - k..] {
        AroundPrefix(p, k);
        a, b, i := "", p[k..], |REDACTED| - k;
      } else {
        AroundSuffix(p, k);
        a, b, i := p[..|p| - k], "", 0;
      }
    }
  }

  /** In a, four z, b, replacing the z's puts the mark there and changes nothing else. */
  lemma {:induction false} ReplaceMiddle(a: string, q: string, b: string, z: char)
    requires |q| == 4 && q[0] == z && z !in a && z !in b
    ensures ReplaceAll(a + q + b, q) == a + REDACTED + b
    decreases |a|
  {
    var s := a + q + b;
    if a == "" {
      assert s[..|q|] == q && s[|q|..] == b;
      StartsAbsent(b, q);
      ReplaceNothing(b, q);
      assert a + REDACTED + b == REDACTED + b;
    } else {
      assert s[..|q|][0] == a[0];
      assert s[1..] == a[1..] + q + b;
      ReplaceMiddle(a[1..], q, b, z);
      assert [a[0]] + (a[1..] + REDACTED + b) == a + REDACTED + b;
    }
  }

  /** p, which has no z, does not occur in a text with four z in the middle and too little on both sides. */
  lemma NotAcross(p: string, a: string, q: string, b: string, z: char)
    requires |p| >= 4 && |q| == 4 && (forall k :: 0 <= k < 4 ==> q[k] == z) && z !in p && |a| < |p| && |b| < |p|
    ensures !Contains(a + q + b, p)
  {
    var s := a + q + b;
    forall i | 0 <= i <= |s| ensures !OccursAt(p, s, i) {
      if i <= |a| + 3 && i + |p| <= |s| {
        var j := if i <= |a| then |a| else |a| + 3;
        assert s[j] == z;
        assert s[i..i + |p|][j - i] == s[j];
      }
    }
  }

  /** No text keeps p once p is among the patterns, whatever the others and their order. */
  ghost predicate AlwaysRemoved(p: string) {
    forall s, patterns :: p in patterns ==> !Contains(RedactAll(s, patterns), p)
  }

  /** Redacting with p and then q leaves p in the text around q. */
  lemma Resurfaces(p: string, a: string, q: string, b: string, i: nat, z: char)
    requires Active(p) && z !in p && Completes(p, a, b, i)
    requires |q| == 4 && (forall k :: 0 <= k < 4 ==> q[k] == z)
    ensures !AlwaysRemoved(p)
  {
    var s, patterns := a + q + b, [p, q];
    NotAcross(p, a, q, b, z);
    ReplaceNothing(s, p);
    ReplaceMiddle(a, q, b, z);
    assert patterns[..1] == [p] && [p][..0] == [];
    assert RedactAll(s, [p]) == ReplaceAll(RedactAll(s, [p][..0]), p) == s;
    assert RedactAll(s, patterns) == ReplaceAll(RedactAll(s, patterns[..1]), q) == a + REDACTED + b;
    assert p in patterns && Contains(RedactAll(s, patterns), p);
  }

  /**
   Exactly which active patterns are safe: p is removed from every text by every
   pattern list that contains it if and only if it does not overlap the mark. z is any
   character that occurs neither in the pattern nor in the mark.
   */
  lemma SafePatternIff(p: string, z: char)
    requires Active(p) && z !in p && z !in REDACTED
    ensures AlwaysRemoved(p) <==> NoOverlap(p)
  {
    if NoOverlap(p) {
      forall s, patterns | p in patterns ensures !Contains(RedactAll(s, patterns), p) {
        PatternGone(s, patterns, p);
      }
    } else {
      var a, b, i := OverlapWitness(p);
      var q := [z, z, z, z];
      Resurfaces(p, a, q, b, i, z);
    }
  }

  // --------------------------------------------------- what redaction does to a text

  function Join(parts: seq<string>, separator: string): string
    requires parts != []
  {
    if |parts| == 1 then parts[0] else parts[0] + separator + Join(parts[1..], separator)
  }

  /** p, put behind a, occurs there for the first time. */
  predicate FirstBehind(p: string, a: string) {
    forall i :: 0 <= i < |a| ==> !OccursAt(p, a + p, i)
  }

  /** parts is s without its occurrences of p, each the leftmost one of what was left of s. */
  predicate Separated(parts: seq<string>, s: string, p: string) {
    && parts != [] && Join(parts, p) == s
    && (forall i :: 0 <= i < |parts| - 1 ==> FirstBehind(p, parts[i]))
    && !Contains(parts[|parts| - 1], p)
  }

  /** r is s with the mark in place of every occurrence of p, and all other text kept. */
  ghost predicate Replaced(s: string, p: string, r: string) {
    exists parts :: Separated(parts, s, p) && r == Join(parts, "[REDACTED]")
  }

  lemma JoinMore(a: string, parts: seq<string>, separator: string)
    requires parts != []
    ensures Join([a] + parts, separator) == a + separator + Join(parts, separator)
  {
    assert ([a] + parts)[1..] == parts;
  }

  lemma JoinFirst(c: char, parts: seq<string>, separator: string)
    requires parts != []
    ensures Join([[c] + parts[0]] + parts[1..], separator) == [c] + Join(parts, separator)
  {
    var more := [[c] + parts[0]] + parts[1..];
    if |parts| > 1 {
      assert more[1..] == parts[1..];
      var rest := Join(parts[1..], separator);
      assert ([c] + parts[0]) + separator + rest == [c] + (parts[0] + separator + rest);
    }
  }

  lemma FirstLonger(c: char, a: string, p: string)
    requires FirstBehind(p, a) && !OccursAt(p, [c] + a + p, 0)
    ensures FirstBehind(p, [c] + a)
  {
    forall i | 0 <= i < |[c] + a| ensures !OccursAt(p, [c] + a + p, i) {
      if i > 0 {
        assert ([c] + a + p)[i..] == (a + p)[i - 1..];
        if OccursAt(p, [c] + a + p, i) {
          assert [c] + a + p == [c] + (a + p);
          OccursLater(p, [c], a + p, i);
        }
      }
    }
  }

  lemma NoneInLonger(c: char, a: string, p: string)
    requires p != "" && !Contains(a, p) && !OccursAt(p, [c] + a, 0)
    ensures !Contains([c] + a, p)
  {
    forall i | 0 <= i <= |[c] + a| ensures !OccursAt(p, [c] + a, i) {
      if i > 0 && OccursAt(p, [c] + a, i) {
        OccursLater(p, [c], a, i);
      }
    }
  }

  lemma {:induction false} JoinStarts(parts: seq<string>, separator: string)
    requires |parts| > 1
    ensures parts[0] + separator <= Join(parts, separator)
  {
  }

  lemma OccursInPrefix(p: string, a: string, s: string, i: nat)
    requires a <= s && i + |p| <= |a|
    ensures OccursAt(p, a, i) <==> OccursAt(p, s, i)
  {
    assert a[i..i + |p|] == s[i..i + |p|];
  }

  /** A character in front of a text that does not start with p there belongs to the first part. */
  lemma SeparatedLonger(c: char, parts: seq<string>, s: string, p: string)
    requires p != "" && Separated(parts, s, p) && !OccursAt(p, [c] + s, 0)
    ensures Separated([[c] + parts[0]] + parts[1..], [c] + s, p)
  {
    var more := [[c] + parts[0]] + parts[1..];
    JoinFirst(c, parts, p);
    assert forall i :: 1 <= i < |parts| ==> more[i] == parts[i];
    if |parts| == 1 {
      NoneInLonger(c, parts[0], p);
    } else {
      JoinStarts(parts, p);
      var head := [c] + parts[0] + p;
      assert head <= [c] + s;
      OccursInPrefix(p, head, [c] + s, 0);
      FirstLonger(c, parts[0], p);
    }
  }

  lemma SeparatedMore(parts: seq<string>, s: string, p: string)
    requires Separated(parts, s, p)
    ensures Separated([""] + parts, p + s, p)
  {
    JoinMore("", parts, p);
    var more := [""] + parts;
    assert "" + p + s == p + s;
    forall i | 0 <= i < |more| - 1 ensures FirstBehind(p, more[i]) {
      if i > 0 {
        assert more[i] == parts[i - 1];
      }
    }
  }

  /** Replacing keeps all text outside the occurrences of the pattern, in its place. */
  lemma {:induction false} ReplaceKeepsRest(s: string, p: string) returns (parts: seq<string>)
    requires p != ""
    ensures Separated(parts, s, p) && ReplaceAll(s, p) == Join(parts, "[REDACTED]")
    ensures Replaced(s, p, ReplaceAll(s, p))
    decreases |s|
  {
    if |s| < |p| {
      parts := [s];
    } else if s[..|p|] == p {
      var rest := ReplaceKeepsRest(s[|p|..], p);
      SeparatedMore(rest, s[|p|..], p);
      JoinMore("", rest, "[REDACTED]");
      assert p + s[|p|..] == s && "" + "[REDACTED]" == REDACTED;
      parts := [""] + rest;
    } else {
      var rest := ReplaceKeepsRest(s[1..], p);
      assert [s[0]] + s[1..] == s;
      SeparatedLonger(s[0], rest, s[1..], p);
      JoinFirst(s[0], rest, "[REDACTED]");
      parts := [[s[0]] + rest[0]] + rest[1..];
    }
  }

  /** No first part is longer than another: the occurrence behind it would be missed. */
  lemma FirstPartFits(parts: seq<string>, others: seq<string>, s: string, p: string)
    requires p != "" && Separated(parts, s, p) && Separated(others, s, p)
    ensures |others[0]| <= |parts[0]|
  {
    var i := |parts[0]|;
    if |parts| > 1 && i < |others[0]| {
      JoinStarts(parts, p);
      OccursAtStart(p, parts[0], p);
      assert (parts[0] + p)[i..i + |p|] == p;
      OccursInPrefix(p, parts[0] + p, s, i);
      assert OccursAt(p, s, i);
      if |others| > 1 {
        JoinStarts(others, p);
        assert FirstBehind(p, others[0]);
        OccursInPrefix(p, others[0] + p, s, i);
      }
      assert false;
    } else if |parts| == 1 && |others| > 1 {
      JoinStarts(others, p);
    }
  }

  lemma SeparatedRest(parts: seq<string>, s: string, p: string)
    requires |parts| > 1 && Separated(parts, s, p)
    ensures |parts[0]| + |p| <= |s| && Separated(parts[1..], s[|parts[0]| + |p|..], p)
    ensures parts[0] == s[..|parts[0]|]
  {
    var rest := parts[1..];
    assert s == (parts[0] + p) + Join(rest, p);
    forall i | 0 <= i < |rest| - 1 ensures FirstBehind(p, rest[i]) {
      assert rest[i] == parts[i + 1];
    }
  }

  /** There is only one way to take the leftmost occurrences out. */
  lemma {:induction false} SeparatedOnce(parts: seq<string>, others: seq<string>, s: string, p: string)
    requires p != "" && Separated(parts, s, p) && Separated(others, s, p)
    ensures parts == others
    decreases |parts|
  {
    FirstPartFits(parts, others, s, p);
    FirstPartFits(others, parts, s, p);
    if |parts| > 1 && |others| > 1 {
      SeparatedRest(parts, s, p);
      SeparatedRest(others, s, p);
      SeparatedOnce(parts[1..], others[1..], s[|parts[0]| + |p|..], p);
      assert parts == [parts[0]] + parts[1..] && others == [others[0]] + others[1..];
    } else if |parts| > 1 {
      JoinStarts(parts, p);
    } else if |others| > 1 {
      JoinStarts(others, p);
    }
  }

  /** Replacing is exactly this: the mark for every leftmost occurrence, all other text kept. */
  lemma ReplacedIff(s: string, p: string, r: string)
    requires p != ""
    ensures Replaced(s, p, r) <==> r == ReplaceAll(s, p)
  {
    var parts := ReplaceKeepsRest(s, p);
    if Replaced(s, p, r) {
      var others :| Separated(others, s, p) && r == Join(others, "[REDACTED]");
      SeparatedOnce(parts, others, s, p);
    }
  }

  /** One pattern of the list: below four bytes it is passed over. */
  ghost predicate Applied(s: string, p: string, r: string) {
    if |p| < 4 then r == s else Replaced(s, p, r)
  }

  /** The patterns are applied one after the other, in the order of the list. */
  ghost predicate Redacts(s: string, patterns: seq<string>, r: string) {
    exists texts: seq<string> :: |texts| == |patterns| + 1 && AppliedInOrder(texts, s, patterns, r)
  }

  ghost predicate AppliedInOrder(texts: seq<string>, s: string, patterns: seq<string>, r: string)
    requires |texts| == |patterns| + 1
  {
    && texts[0] == s && texts[|patterns|] == r
    && forall i :: 0 <= i < |patterns| ==> Applied(texts[i], patterns[i], texts[i + 1])
  }

  lemma {:induction false} RedactAllRedacts(s: string, patterns: seq<string>)
    ensures Redacts(s, patterns, RedactAll(s, patterns))
  {
    if patterns == [] {
      assert AppliedInOrder([s], s, patterns, s);
    } else {
      var init, p := patterns[..|patterns| - 1], patterns[|patterns| - 1];
      RedactAllRedacts(s, init);
      var t, r := RedactAll(s, init), RedactAll(s, patterns);
      var texts :| |texts| == |init| + 1 && AppliedInOrder(texts, s, init, t);
      if Active(p) {
        var _ := ReplaceKeepsRest(t, p);
      }
      assert Applied(t, p, r);
      AppliedNext(texts, s, patterns, t, r);
    }
  }

  lemma AppliedNext(texts: seq<string>, s: string, patterns: seq<string>, t: string, r: string)
    requires patterns != [] && |texts| == |patterns|
    requires AppliedInOrder(texts, s, patterns[..|patterns| - 1], t) && Applied(t, patterns[|patterns| - 1], r)
    ensures AppliedInOrder(texts + [r], s, patterns, r)
  {
    var more, init := texts + [r], patterns[..|patterns| - 1];
    forall i | 0 <= i < |patterns| ensures Applied(more[i], patterns[i], more[i + 1]) {
      if i < |init| {
        assert patterns[i] == init[i] && Applied(texts[i], init[i], texts[i + 1]);
      }
    }
  }

  // ------------------------------------------------------------- nested contexts

  datatype PathStep = Key(name: string) | Index(i: nat)

  function At(v: Value, path: seq<PathStep>): Option<Value>
    decreases |path|
  {
    if path == [] then Some(v)
    else match (v, path[0])
      case (Object(fields), Key(k)) => if k in fields then At(fields[k], path[1..]) else None
      case (Array(items), Index(i)) => if i < |items| then At(items[i], path[1..]) else None
      case _ => None
  }

  function KeyOf(step: PathStep): string {
    if step.Key? then step.name else ""
  }

  /** The key name a value sits under; list elements sit under the empty name. */
  function NameAt(key: string, path: seq<PathStep>): string {
    if path == [] then key else KeyOf(path[|path| - 1])
  }

  predicate Exposed(key: string, path: seq<PathStep>, keys: seq<string>) {
    !SensitiveKey(key, keys) && forall i :: 0 <= i < |path| ==> !SensitiveKey(KeyOf(path[i]), keys)
  }

  /**
   Redaction is complete: at every path of the redacted value, a sensitive name holds
   nothing but the mark, byte leaves have become strings, and no active pattern clear
   of the mark occurs in any string.
   */
  lemma {:induction false} RedactionIsComplete(key: string, v: Value, keys: seq<string>, patterns: seq<string>, path: seq<PathStep>)
    requires At(RedactValue(key, v, keys, patterns), path).Some?
    ensures var w := At(RedactValue(key, v, keys, patterns), path).value;
            && (SensitiveKey(NameAt(key, path), keys) ==> w == Str("[REDACTED]"))
            && !w.Bytes? && !w.RawMessage?
            && (w.Str? ==> forall p :: p in patterns && Active(p) && NoOverlap(p) ==> !Contains(w.s, p))
            && At(v, path).Some?
    decreases |path|
  {
    var out := RedactValue(key, v, keys, patterns);
    if path == [] {
      match v {
        case Str(s) => LeafIsClean(s, patterns);
        case Bytes(s) => LeafIsClean(s, patterns);
        case RawMessage(s) => LeafIsClean(s, patterns);
        case _ =>
      }
    } else {
      var step := path[0];
      var child := if step.Key? then v.fields[step.name] else v.items[step.i];
      RedactionIsComplete(KeyOf(step), child, keys, patterns, path[1..]);
    }
  }

  lemma LeafIsClean(s: string, patterns: seq<string>)
    ensures forall p :: p in patterns && Active(p) && NoOverlap(p) ==> !Contains(RedactAll(s, patterns), p)
  {
    forall p | p in patterns && Active(p) && NoOverlap(p) ensures !Contains(RedactAll(s, patterns), p) {
      PatternGone(s, patterns, p);
    }
  }

  /** Redaction does not overreach: below exposed names every value is at its place, redacted as if alone. */
  lemma {:induction false} ExposedIsKept(key: string, v: Value, keys: seq<string>, patterns: seq<string>, path: seq<PathStep>)
    requires Exposed(key, path, keys) && At(v, path).Some?
    ensures At(RedactValue(key, v, keys, patterns), path) == Some(RedactValue(NameAt(key, path), At(v, path).value, keys, patterns))
    decreases |path|
  {
    if path != [] {
      var step := path[0];
      var child := if step.Key? then v.fields[step.name] else v.items[step.i];
      assert Exposed(KeyOf(step), path[1..], keys) by {
        assert forall i :: 0 <= i < |path[1..]| ==> path[1..][i] == path[i + 1];
      }
      ExposedIsKept(KeyOf(step), child, keys, patterns, path[1..]);
    }
  }

  /** w is what an exposed value v becomes: texts are redacted, everything else keeps its shape. */
  ghost predicate KeptShape(v: Value, w: Value, keys: seq<string>, patterns: seq<string>) {
    match v
    case Str(s) => w.Str? && Redacts(s, patterns, w.s)
    case Bytes(s) => w.Str? && Redacts(s, patterns, w.s)
    case RawMessage(s) => w.Str? && Redacts(s, patterns, w.s)
    case Object(fields) =>
      && w.Object? && w.fields.Keys == fields.Keys
      && forall k :: k in fields && SensitiveKey(k, keys) ==> w.fields[k] == Str("[REDACTED]")
    case Array(items) => w.Array? && |w.items| == |items|
    case Opaque(_) => w == v
  }

  /** Nothing is lost at an exposed path: its text keeps all but the patterns, a container all its entries, any other value itself. */
  lemma ExposedKeepsRest(key: string, v: Value, keys: seq<string>, patterns: seq<string>, path: seq<PathStep>)
    requires Exposed(key, path, keys) && At(v, path).Some?
    ensures var w := At(RedactValue(key, v, keys, patterns), path);
            w.Some? && KeptShape(At(v, path).value, w.value, keys, patterns)
  {
    ExposedIsKept(key, v, keys, patterns, path);
    ShapeIsKept(NameAt(key, path), At(v, path).value, keys, patterns);
  }

  lemma ShapeIsKept(key: string, v: Value, keys: seq<string>, patterns: seq<string>)
    requires !SensitiveKey(key, keys)
    ensures KeptShape(v, RedactValue(key, v, keys, patterns), keys, patterns)
  {
    match v {
      case Str(s) => RedactAllRedacts(s, patterns);
      case Bytes(s) => RedactAllRedacts(s, patterns);
      case RawMessage(s) => RedactAllRedacts(s, patterns);
      case _ =>
    }
  }

  // ----------------------------------------------------------------- idempotence

  predicate AllClear(patterns: seq<string>) {
    forall p :: p in patterns && Active(p) ==> NoOverlap(p)
  }

  lemma {:induction false} CleanStays(s: string, patterns: seq<string>)
    requires forall p :: p in patterns && Active(p) ==> !Contains(s, p)
    ensures RedactAll(s, patterns) == s
  {
    if patterns != [] {
      var init, p := patterns[..|patterns| - 1], patterns[|patterns| - 1];
      assert p in patterns && forall q :: q in init ==> q in patterns;
      CleanStays(s, init);
      if Active(p) {
        ReplaceNothing(s, p);
      }
    }
  }

  /** Redacting twice is redacting once, for every nested value, when all active patterns are clear of the mark. */
  lemma {:induction false} RedactTwice(key: string, v: Value, keys: seq<string>, patterns: seq<string>)
    requires AllClear(patterns)
    ensures var once := RedactValue(key, v, keys, patterns); RedactValue(key, once, keys, patterns) == once
    decreases v
  {
    if !SensitiveKey(key, keys) {
      match v {
        case Str(s) => TextTwice(s, patterns);
        case Bytes(s) => TextTwice(s, patterns);
        case RawMessage(s) => TextTwice(s, patterns);
        case Opaque(_) =>
        case Object(fields) =>
          forall k | k in fields
            ensures RedactValue(k, RedactValue(k, fields[k], keys, patterns), keys, patterns) == RedactValue(k, fields[k], keys, patterns)
          {
            RedactTwice(k, fields[k], keys, patterns);
          }
        case Array(items) =>
          forall i | 0 <= i < |items|
            ensures RedactValue("", RedactValue("", items[i], keys, patterns), keys, patterns) == RedactValue("", items[i], keys, patterns)
          {
            RedactTwice("", items[i], keys, patterns);
          }
      }
    }
  }

  lemma TextTwice(s: string, patterns: seq<string>)
    requires AllClear(patterns)
    ensures RedactAll(RedactAll(s, patterns), patterns) == RedactAll(s, patterns)
  {
    LeafIsClean(s, patterns);
    CleanStays(RedactAll(s, patterns), patterns);
  }

  // ------------------------------------------------------------------- the writer

  datatype Entry = Entry(actorId: string, action: string, outcome: string, context: Option<map<string, Value>>)

  const DEFAULT_KEYS: seq<string> :=
    ["token", "api_key", "apikey", "secret", "password", "passwd", "authorization", "cookie",
     "credential", "private_key", "access_token", "refresh_token", "bearer", "prompt"]

  /** The audit writer; rows holds what was persisted. */
  class Writer {
    var redactPatterns: seq<string>
    var redactKeys: seq<string>
    var rows: seq<Entry>

    constructor ()
      ensures redactPatterns == [] && rows == [] && redactKeys == DEFAULT_KEYS
    {
      redactPatterns, rows, redactKeys := [], [], DEFAULT_KEYS;
    }

    method WithRedactPatterns(patterns: seq<string>)
      modifies this
      ensures redactPatterns == old(redactPatterns) + patterns && redactKeys == old(redactKeys) && rows == old(rows)
    {
      redactPatterns := redactPatterns + patterns;
    }

    method WithRedactKeys(keys: seq<string>)
      modifies this
      ensures redactKeys == old(redactKeys) + keys && redactPatterns == old(redactPatterns) && rows == old(rows)
    {
      redactKeys := redactKeys + keys;
    }

    /** Rejects an entry without actor or action; otherwise persists it with every value redacted by its key. */
    method Record(entry: Entry) returns (ok: bool)
      modifies this
      ensures ok <==> entry.actorId != "" && entry.action != ""
      ensures redactKeys == old(redactKeys) && redactPatterns == old(redactPatterns)
      ensures !ok ==> rows == old(rows)
      ensures ok ==> |rows| == |old(rows)| + 1 && rows[..|rows| - 1] == old(rows)
                     && rows[|rows| - 1].actorId == entry.actorId && rows[|rows| - 1].action == entry.action
                     && rows[|rows| - 1].outcome == (if entry.outcome == "" then "success" else entry.outcome)
                     && (entry.context.None? <==> rows[|rows| - 1].context.None?)
      ensures ok && entry.context.Some? ==>
                var stored := rows[|rows| - 1].context.value;
                stored.Keys == entry.context.value.Keys
                && forall k :: k in stored ==> stored[k] == RedactValue(k, entry.context.value[k], redactKeys, redactPatterns)
    {
      if entry.actorId == "" {
        return false;
      }
      if entry.action == "" {
        return false;
      }
      var outcome := entry.outcome;
      if outcome == "" {
        outcome := "success";
      }
      var context: Option<map<string, Value>> := None;
      if entry.context.Some? {
        var out: map<string, Value> := map[];
        var left := entry.context.value.Keys;
        while left != {}
          invariant left <= entry.context.value.Keys && out.Keys == entry.context.value.Keys - left
          invariant forall k :: k in out ==> out[k] == RedactValue(k, entry.context.value[k], redactKeys, redactPatterns)
          invariant redactKeys == old(redactKeys) && redactPatterns == old(redactPatterns) && rows == old(rows)
        {
          var k :| k in left;
          out := out[k := RedactValue(k, entry.context.value[k], redactKeys, redactPatterns)];
          left := left - {k};
        }
        context := Some(out);
      }
      rows := rows + [Entry(entry.actorId, entry.action, outcome, context)];
      return true;
    }
  }
}
