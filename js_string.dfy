/** The parts of JavaScript's string semantics that the pipeline relies on:
  * `length` (UTF-16 code units), `trim()` and `toLowerCase()`. */
module JsString {

  /** A code point that `String.prototype.trim` strips: ECMAScript's WhiteSpace
    * (tab, vertical tab, form feed, ZWNBSP and every Unicode "Zs" space)
    * or LineTerminator (LF, CR, LS, PS). */
  predicate IsTrimmable(c: char) {
    var n := c as int;
    n == 0x09 || n == 0x0A || n == 0x0B || n == 0x0C || n == 0x0D
    || n == 0x20 || n == 0xA0 || n == 0x1680 || (0x2000 <= n <= 0x200A)
    || n == 0x2028 || n == 0x2029 || n == 0x202F || n == 0x205F
    || n == 0x3000 || n == 0xFEFF
  }

  /** Code units a code point takes in UTF-16: two above the Basic Multilingual Plane. */
  function Units(c: char): nat {
    if c as int >= 0x1_0000 then 2 else 1
  }

  /** JavaScript's `s.length`: the number of UTF-16 code units. */
  function Length(s: string): (n: nat)
    ensures |s| <= n <= 2 * |s|
  {
    if s == [] then 0 else Units(s[0]) + Length(s[1..])
  }

  /** Code units of `s` that are not whitespace. */
  function SolidUnits(s: string): nat {
    if s == [] then 0
    else (if IsTrimmable(s[0]) then 0 else Units(s[0])) + SolidUnits(s[1..])
  }

  /** `s` without its leading whitespace. */
  function TrimStart(s: string): (r: string)
    ensures |r| <= |s| && r == s[|s| - |r|..]
    ensures forall k :: 0 <= k < |s| - |r| ==> IsTrimmable(s[k])
    ensures r == [] || !IsTrimmable(r[0])
  {
    if s != [] && IsTrimmable(s[0]) then TrimStart(s[1..]) else s
  }

  /** `s` without its trailing whitespace. */
  function TrimEnd(s: string): (r: string)
    ensures |r| <= |s| && r == s[..|r|]
    ensures forall k :: |r| <= k < |s| ==> IsTrimmable(s[k])
    ensures r == [] || !IsTrimmable(r[|r| - 1])
  {
    if s != [] && IsTrimmable(s[|s| - 1]) then TrimEnd(s[..|s| - 1]) else s
  }

  /** JavaScript's `s.trim()`: no longer than `s`, and neither starting nor ending with
    * whitespace (`TrimStart` and `TrimEnd` say what each side cuts off). */
  function Trim(s: string): (r: string)
    ensures |r| <= |s|
    ensures r == [] || (!IsTrimmable(r[0]) && !IsTrimmable(r[|r| - 1]))
  {
    var t := TrimStart(s);
    var r := TrimEnd(t);
    assert r != [] ==> r[0] == t[0];
    r
  }

  lemma {:induction false} SolidUnitsConcat(a: string, b: string)
    ensures SolidUnits(a + b) == SolidUnits(a) + SolidUnits(b)
    decreases |a|
  {
    if a == [] {
      assert a + b == b;
    } else {
      assert (a + b)[0] == a[0];
      assert (a + b)[1..] == a[1..] + b;
      SolidUnitsConcat(a[1..], b);
    }
  }

  lemma {:induction false} SolidUnitsOfSpace(s: string)
    requires forall k :: 0 <= k < |s| ==> IsTrimmable(s[k])
    ensures SolidUnits(s) == 0
    decreases |s|
  {
    if s != [] {
      SolidUnitsOfSpace(s[1..]);
    }
  }

  lemma {:induction false} SolidUnitsAtMostLength(s: string)
    ensures SolidUnits(s) <= Length(s)
    decreases |s|
  {
    if s != [] {
      SolidUnitsAtMostLength(s[1..]);
    }
  }

  lemma TrimStartKeepsSolid(s: string)
    ensures SolidUnits(TrimStart(s)) == SolidUnits(s)
  {
    var t := TrimStart(s);
    var dropped := s[..|s| - |t|];
    assert s == dropped + t;
    SolidUnitsConcat(dropped, t);
    SolidUnitsOfSpace(dropped);
  }

  lemma TrimEndKeepsSolid(s: string)
    ensures SolidUnits(TrimEnd(s)) == SolidUnits(s)
  {
    var t := TrimEnd(s);
    var dropped := s[|t|..];
    assert s == t + dropped;
    SolidUnitsConcat(t, dropped);
    SolidUnitsOfSpace(dropped);
  }

  /** Trimming removes whitespace only. */
  lemma TrimKeepsSolid(s: string)
    ensures SolidUnits(Trim(s)) == SolidUnits(s)
  {
    TrimStartKeepsSolid(s);
    TrimEndKeepsSolid(TrimStart(s));
  }

  /** A string that starts and ends with a non-whitespace character and is
    * longer than one code unit has at least two solid code units. */
  lemma SolidEnds(r: string)
    requires r != [] && !IsTrimmable(r[0]) && !IsTrimmable(r[|r| - 1])
    requires Length(r) > 1
    ensures SolidUnits(r) > 1
  {
    if |r| == 1 {
      assert r[1..] == [];
    } else {
      var mid := r[1..|r| - 1];
      assert r[1..] == mid + [r[|r| - 1]];
      SolidUnitsConcat(mid, [r[|r| - 1]]);
      assert [r[|r| - 1]][1..] == [];
    }
  }

  /** `s.trim().length <= 1` exactly when `s` holds at most one code unit
    * that is not whitespace: spaces around or inside a one-letter query do not count. */
  lemma TrimShort(s: string)
    ensures Length(Trim(s)) <= 1 <==> SolidUnits(s) <= 1
  {
    var r := Trim(s);
    TrimKeepsSolid(s);
    SolidUnitsAtMostLength(r);
    if Length(r) > 1 {
      SolidEnds(r);
    }
  }

  /** `toLowerCase()` of one character, for the ASCII letters. */
  function LowerChar(c: char): char {
    if 'A' <= c <= 'Z' then (c as int + 32) as char else c
  }

  /** `s.toLowerCase()`, for the ASCII letters. */
  function Lower(s: string): (r: string)
    ensures |r| == |s|
  {
    if s == [] then [] else [LowerChar(s[0])] + Lower(s[1..])
  }

  /** Lower-casing twice is lower-casing once: the category the selector stores
    * already lower-cased compares the same way when the pipeline lower-cases it again. */
  lemma {:induction false} LowerIdempotent(s: string)
    ensures Lower(Lower(s)) == Lower(s)
    decreases |s|
  {
    if s != [] {
      LowerIdempotent(s[1..]);
      assert Lower(s)[1..] == Lower(s[1..]);
    }
  }
}
