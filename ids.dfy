/**
 * `generateUniqueId(className)` of src/utils.js: a three-letter prefix taken
 * from the class name and the last eight digits of the clock. The clock
 * (`Date.now()`) is the parameter `now`.
 */
module Ids {
  import opened Decimal

  /** `Number.prototype.toString()` of an integral time value. */
  function JsString(n: int): string {
    if n < 0 then "-" + ToDecimal(-n) else ToDecimal(n)
  }

  /** `s.slice(-k)`: the last `k` characters, or all of `s` when it is shorter. */
  function SliceLast(s: string, k: nat): (r: string)
    ensures |r| == if |s| < k then |s| else k
    ensures r == s[|s| - |r|..]
  {
    if |s| <= k then s else s[|s| - k..]
  }

  function Repeat(c: char, n: nat): (r: string)
    ensures |r| == n && forall i :: 0 <= i < n ==> r[i] == c
  {
    if n == 0 then [] else [c] + Repeat(c, n - 1)
  }

  /** `s.padStart(k, c)` with a one-character pad. */
  function PadStart(s: string, k: nat, c: char): (r: string)
    ensures |s| >= k ==> r == s
    ensures |s| < k ==> |r| == k && r[k - |s|..] == s && forall i :: 0 <= i < k - |s| ==> r[i] == c
  {
    if |s| >= k then s else Repeat(c, k - |s|) + s
  }

  /** `s.padEnd(k, c)` with a one-character pad. */
  function PadEnd(s: string, k: nat, c: char): (r: string)
    ensures |s| >= k ==> r == s
    ensures |s| < k ==> |r| == k && r[..|s|] == s && forall i :: |s| <= i < k ==> r[i] == c
  {
    if |s| >= k then s else s + Repeat(c, k - |s|)
  }

  /** `toLowerCase` on the ASCII letters; other characters are kept. */
  function Lower(c: char): char {
    if 'A' <= c <= 'Z' then (c as int - 'A' as int + 'a' as int) as char else c
  }

  function LowerAll(s: string): (r: string)
    ensures |r| == |s| && forall i :: 0 <= i < |s| ==> r[i] == Lower(s[i])
  {
    if s == [] then [] else [Lower(s[0])] + LowerAll(s[1..])
  }

  /** `timestamp.toString().slice(-8).padStart(8, '0')`. */
  function NumericId(now: int): (s: string)
    ensures |s| == 8
  {
    PadStart(SliceLast(JsString(now), 8), 8, '0')
  }

  /** `className.substring(0, 3).toLowerCase().padEnd(3, 'x')`. */
  function Prefix(className: string): (p: string)
    ensures |p| == 3
    ensures forall i :: 0 <= i < 3 ==> p[i] == if i < |className| then Lower(className[i]) else 'x'
  {
    var head := if |className| < 3 then className else className[..3];
    PadEnd(LowerAll(head), 3, 'x')
  }

  /** `generateUniqueId(className)` at clock reading `now`; `''` is the default class name. */
  function GenerateUniqueId(className: string, now: int): (id: string)
    ensures |NumericId(now)| == 8
    ensures className == "" ==> id == NumericId(now)
    ensures className != "" ==> |id| == 12 && id[..3] == Prefix(className) && id[3] == '-'
                                && id[4..] == NumericId(now)
  {
    assert |SliceLast(JsString(now), 8)| <= 8;
    if className != "" then Prefix(className) + "-" + NumericId(now) else NumericId(now)
  }

  /**
   * The numeric part of an id is the clock modulo 10^8, written with
   * exactly eight digits (zero-padded on the left).
   */
  lemma NumericIdValue(now: nat)
    ensures |NumericId(now)| == 8 && AllDigits(NumericId(now))
    ensures ValueOf(NumericId(now)) == now % Pow10(8)
  {
    var s := ToDecimal(now);
    assert JsString(now) == s;
    var last := SliceLast(s, 8);
    if |s| <= 8 {
      ValueBound(s);
      assert Pow10(|s|) <= Pow10(8) by { Pow10Monotone(|s|, 8); }
      ModUnique(now, 0, Pow10(8), now);
    } else {
      SuffixValue(s, 8);
    }
    assert AllDigits(last) && ValueOf(last) == now % Pow10(8);
    var r := NumericId(now);
    if |last| < 8 {
      var z := r[..8 - |last|];
      assert r == z + last;
      ZerosValue(z);
      ValueAppend(z, last);
    }
  }

  lemma {:induction false} Pow10Monotone(j: nat, k: nat)
    requires j <= k
    ensures Pow10(j) <= Pow10(k)
  {
    if j < k {
      Pow10Monotone(j, k - 1);
    }
  }

  /** Clock readings 10^8 ms (about 27.8 hours) apart give the same id. */
  lemma IdsRepeat(className: string, t1: nat, t2: nat)
    requires t1 % Pow10(8) == t2 % Pow10(8)
    ensures GenerateUniqueId(className, t1) == GenerateUniqueId(className, t2)
  {
    NumericIdValue(t1);
    NumericIdValue(t2);
    ValueInjective(NumericId(t1), NumericId(t2));
  }

  /** Within one 10^8 ms window distinct clock readings give distinct ids. */
  lemma IdsDistinct(className: string, t1: nat, t2: nat)
    requires t1 % Pow10(8) != t2 % Pow10(8)
    ensures GenerateUniqueId(className, t1) != GenerateUniqueId(className, t2)
  {
    NumericIdValue(t1);
    NumericIdValue(t2);
  }

  /** Ids of each class name the resolvers use. */
  lemma ResolverPrefixes()
    ensures Prefix("requirement") == "req"
    ensures Prefix("type") == "typ"
    ensures Prefix("validation") == "val"
    ensures Prefix("verification") == "ver"
    ensures Prefix("stage") == "sta" && Prefix("status") == "sta"
  {
  }

  /** A stage and a status created in the same millisecond get the same id. */
  lemma StageStatusCollide(now: int)
    ensures GenerateUniqueId("stage", now) == GenerateUniqueId("status", now)
  {
    ResolverPrefixes();
  }

  /** A class name shorter than 3 characters is lower-cased and padded with 'x'. */
  lemma ShortPrefix(className: string)
    requires |className| < 3
    ensures Prefix(className) == LowerAll(className) + Repeat('x', 3 - |className|)
  {
  }
}
