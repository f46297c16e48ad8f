/**
 Password lengths: the length a BMC counts on the wire, the check of a password against the reported
 limits, and the bounded regenerate-and-shrink loop. Limits are 64-bit unsigned and are converted to
 signed; a draw of the generator is a parameter.
 */
module Password {
  import opened Options

  const FLOOR := 8
  const MARGIN := 8
  const RETRIES := 8
  const DEFAULT_LENGTH := 20

  type Uint = n: int | 0 <= n < 0x1_0000_0000_0000_0000

  /** Conversion of an unsigned 64-bit value to a signed one. */
  function Signed(n: Uint): int {
    if n < 0x8000_0000_0000_0000 then n else n - 0x1_0000_0000_0000_0000
  }

  function Max(a: int, b: int): int {
    if a > b then a else b
  }

  // ---------------------------------------------------------------- the wire form

  function HexDigit(n: nat): char
    requires n < 16
  {
    "0123456789abcdef"[n]
  }

  /** A rune inside a JSON string, with HTML characters escaped. */
  function JsonRune(c: char): string {
    if c == '\"' then "\\\""
    else if c == '\\' then "\\\\"
    else if c == 8 as char then "\\b"
    else if c == 12 as char then "\\f"
    else if c == '\n' then "\\n"
    else if c == '\r' then "\\r"
    else if c == '\t' then "\\t"
    else if c < ' ' || c in "<>&" then "\\u00" + [HexDigit(c as int / 16 % 16), HexDigit(c as int % 16)]
    else if c == 0x2028 as char then "\\u2028"
    else if c == 0x2029 as char then "\\u2029"
    else [c]
  }

  function Utf8Len(c: char): nat {
    if c as int < 0x80 then 1 else if c as int < 0x800 then 2 else if c as int < 0x1_0000 then 3 else 4
  }

  /** A rune takes one to four bytes, by the number of bits it needs: 7, 11, 16 or more. */
  lemma Utf8LenIs(c: char)
    ensures 1 <= Utf8Len(c) <= 4
    ensures c < 128 as char <==> Utf8Len(c) == 1
    ensures c as int < 2048 <==> Utf8Len(c) <= 2
    ensures c as int < 65536 <==> Utf8Len(c) <= 3
  {
  }

  function Bytes(s: string): nat {
    if s == "" then 0 else Utf8Len(s[0]) + Bytes(s[1..])
  }

  function JsonBody(pw: string): string {
    if pw == "" then "" else JsonRune(pw[0]) + JsonBody(pw[1..])
  }

  function RuneLen(c: char): nat {
    if c in "\"\\\n\r\t" || c == 8 as char || c == 12 as char then 2
    else if c < ' ' || c in "<>&" || c == 0x2028 as char || c == 0x2029 as char then 6
    else Utf8Len(c)
  }

  function EscapedLen(pw: string): nat {
    if pw == "" then 0 else RuneLen(pw[0]) + EscapedLen(pw[1..])
  }

  lemma {:induction false} BytesOfConcat(a: string, b: string)
    ensures Bytes(a + b) == Bytes(a) + Bytes(b)
  {
    if a == "" {
      assert a + b == b;
    } else {
      BytesOfConcat(a[1..], b);
      assert (a + b)[1..] == a[1..] + b;
    }
  }

  lemma {:induction false} ShortBytes(s: string)
    requires forall k :: 0 <= k < |s| ==> s[k] as int < 128
    ensures Bytes(s) == |s|
  {
    if s != "" {
      ShortBytes(s[1..]);
    }
  }

  lemma RuneLenIsWireLength(c: char)
    ensures RuneLen(c) == Bytes(JsonRune(c))
  {
    if JsonRune(c) == [c] {
      assert Bytes([c]) == Utf8Len(c) + Bytes([]);
    } else {
      ShortBytes(JsonRune(c));
    }
  }

  /** The length counted is the number of bytes of the escaped form. */
  lemma {:induction false} EscapedLenIsWireLength(pw: string)
    ensures EscapedLen(pw) == Bytes(JsonBody(pw))
  {
    if pw != "" {
      EscapedLenIsWireLength(pw[1..]);
      BytesOfConcat(JsonRune(pw[0]), JsonBody(pw[1..]));
      RuneLenIsWireLength(pw[0]);
    }
  }

  /** Characters the escaping leaves alone. */
  predicate Plain(c: char) {
    ' ' <= c < 128 as char && c !in "\"\\<>&"
  }

  lemma PlainRune(c: char)
    ensures RuneLen(c) >= 1 && (RuneLen(c) == 1 <==> Plain(c))
  {
  }

  /** The wire length is at least the rune count, and equal to it exactly when nothing is escaped. */
  lemma {:induction false} EscapingGrows(pw: string)
    ensures EscapedLen(pw) >= |pw|
    ensures EscapedLen(pw) == |pw| <==> forall c :: c in pw ==> Plain(c)
  {
    if pw != "" {
      EscapingGrows(pw[1..]);
      PlainRune(pw[0]);
      assert pw == [pw[0]] + pw[1..];
      assert (forall c :: c in pw ==> Plain(c)) <==> Plain(pw[0]) && forall c :: c in pw[1..] ==> Plain(c);
    }
  }

  // ---------------------------------------------------------------- limits

  function ValidatePasswordLength(pw: string, maxLen: Uint, minLen: Uint, dell: bool): bool {
    && (maxLen == 0 || (if dell then EscapedLen(pw) else |pw|) <= Signed(maxLen))
    && (minLen == 0 || |pw| >= Signed(minLen))
  }

  /** A password is rejected exactly when it is longer than a reported maximum or shorter than a reported minimum. */
  lemma RejectsIff(pw: string, maxLen: Uint, minLen: Uint, dell: bool)
    ensures !ValidatePasswordLength(pw, maxLen, minLen, dell) <==>
              || (maxLen != 0 && dell && Bytes(JsonBody(pw)) > Signed(maxLen))
              || (maxLen != 0 && !dell && |pw| > Signed(maxLen))
              || (minLen != 0 && |pw| < Signed(minLen))
    ensures Signed(maxLen) == (if maxLen < 0x8000_0000_0000_0000 then maxLen else maxLen - 0x1_0000_0000_0000_0000)
  {
    EscapedLenIsWireLength(pw);
  }

  // ---------------------------------------------------------------- generation

  /** A draw: the attempt it belongs to and the length asked for. */
  type Draw = (nat, int) -> Option<string>

  /** The generator returns exactly the requested number of ASCII characters, or fails. */
  ghost predicate Exact(draw: Draw) {
    forall i, n :: draw(i, n).Some? ==> |draw(i, n).value| == n && forall c :: c in draw(i, n).value ==> c < 128 as char
  }

  datatype Generated = Generated(pw: Option<string>, requested: seq<int>)

  function FloorOf(minLen: Uint): int {
    Max(FLOOR, Signed(minLen))
  }

  /** The length asked for first, or nothing when the limits cannot be met. */
  function FirstLength(maxLen: Uint, minLen: Uint, fallback: int): Option<int> {
    if maxLen == 0 then Some(Max(if fallback <= 0 then DEFAULT_LENGTH else fallback, FloorOf(minLen)))
    else if Signed(maxLen) < FloorOf(minLen) then None
    else Some(Max(Signed(maxLen) - MARGIN, FloorOf(minLen)))
  }

  function Fits(pw: string, maxLen: Uint): bool {
    maxLen == 0 || EscapedLen(pw) <= Signed(maxLen)
  }

  function Shrunk(pw: string, length: int, maxLen: Uint, floor: int): int {
    Max(length - Max(EscapedLen(pw) - Signed(maxLen), 1), floor)
  }

  /** The remaining draws, after those that asked for the lengths in `requested`. */
  function Attempts(draw: Draw, requested: seq<int>, left: nat, length: int, maxLen: Uint, floor: int): Generated
    decreases left
  {
    if left == 0 then Generated(None, requested)
    else
      match draw(|requested|, length)
      case None => Generated(None, requested + [length])
      case Some(pw) =>
        if Fits(pw, maxLen) then Generated(Some(pw), requested + [length])
        else Attempts(draw, requested + [length], left - 1, Shrunk(pw, length, maxLen, floor), maxLen, floor)
  }

  function Generation(draw: Draw, maxLen: Uint, minLen: Uint, fallback: int): Generated {
    match FirstLength(maxLen, minLen, fallback)
    case None => Generated(None, [])
    case Some(length) => Attempts(draw, [], RETRIES, length, maxLen, FloorOf(minLen))
  }

  method GenerateHTMLSafePassword(draw: Draw, maxLen: Uint, minLen: Uint, fallback: int)
    returns (result: Option<string>, requested: seq<int>)
    ensures Generated(result, requested) == Generation(draw, maxLen, minLen, fallback)
  {
    var floor := Max(FLOOR, Signed(minLen));
    var length;
    requested := [];
    if maxLen == 0 {
      length := fallback;
      if length <= 0 {
        length := DEFAULT_LENGTH;
      }
      length := Max(length, floor);
    } else {
      if Signed(maxLen) < floor {
        return None, [];
      }
      length := Max(Signed(maxLen) - MARGIN, floor);
    }
    for i := 0 to RETRIES
      invariant |requested| == i
      invariant Generation(draw, maxLen, minLen, fallback) == Attempts(draw, requested, RETRIES - i, length, maxLen, floor)
    {
      var drawn := draw(i, length);
      requested := requested + [length];
      if drawn.None? {
        return None, requested;
      }
      var pw := drawn.value;
      if maxLen == 0 {
        return Some(pw), requested;
      }
      var overflow := EscapedLen(pw) - Signed(maxLen);
      if overflow <= 0 {
        return Some(pw), requested;
      }
      length := Max(length - Max(overflow, 1), floor);
    }
    return None, requested;
  }

  /** Lengths that never rise and stay at or above the floor. */
  predicate Falling(requested: seq<int>, floor: int) {
    && (forall k :: 0 <= k < |requested| ==> requested[k] >= floor)
    && (forall k, m :: 0 <= k < m < |requested| ==> requested[m] <= requested[k])
  }

  predicate TooLong(draw: Draw, k: nat, length: int, maxLen: Uint) {
    draw(k, length).Some? && !Fits(draw(k, length).value, maxLen)
  }

  /** The outcome: what the last draw returned, and why the earlier ones were not kept. */
  ghost predicate Explained(draw: Draw, out: Generated, total: nat, maxLen: Uint) {
    var last := |out.requested| - 1;
    && |out.requested| <= total
    && (forall k :: 0 <= k < last ==> TooLong(draw, k, out.requested[k], maxLen))
    && (out.pw.Some? ==> last >= 0 && draw(last, out.requested[last]) == out.pw && Fits(out.pw.value, maxLen))
    && (out.pw.None? && last >= 0 ==>
          || draw(last, out.requested[last]).None?
          || (last + 1 == total && TooLong(draw, last, out.requested[last], maxLen)))
  }

  lemma {:induction false} AttemptsExplained(draw: Draw, requested: seq<int>, left: nat, length: int, maxLen: Uint, floor: int)
    requires Falling(requested, floor) && length >= floor && forall k :: 0 <= k < |requested| ==> length <= requested[k]
    requires forall k :: 0 <= k < |requested| ==> TooLong(draw, k, requested[k], maxLen)
    ensures var out := Attempts(draw, requested, left, length, maxLen, floor);
            && Falling(out.requested, floor)
            && Explained(draw, out, |requested| + left, maxLen)
    decreases left
  {
    if left > 0 && TooLong(draw, |requested|, length, maxLen) {
      var next := Shrunk(draw(|requested|, length).value, length, maxLen, floor);
      AttemptsExplained(draw, requested + [length], left - 1, next, maxLen, floor);
    }
  }

  /** At most eight lengths are asked for; they never rise and never fall below the floor. */
  lemma RequestsShrink(draw: Draw, maxLen: Uint, minLen: Uint, fallback: int)
    ensures var out := Generation(draw, maxLen, minLen, fallback);
            |out.requested| <= RETRIES && Falling(out.requested, FloorOf(minLen))
  {
    var first := FirstLength(maxLen, minLen, fallback);
    if first.Some? {
      AttemptsExplained(draw, [], RETRIES, first.value, maxLen, FloorOf(minLen));
    }
  }

  /** A returned password passes the check with the same limits, on every manufacturer. */
  lemma GeneratedPasswordValidates(draw: Draw, maxLen: Uint, minLen: Uint, fallback: int, dell: bool)
    requires Exact(draw)
    ensures var out := Generation(draw, maxLen, minLen, fallback);
            out.pw.Some? ==> ValidatePasswordLength(out.pw.value, maxLen, minLen, dell)
  {
    var first := FirstLength(maxLen, minLen, fallback);
    if first.Some? {
      AttemptsExplained(draw, [], RETRIES, first.value, maxLen, FloorOf(minLen));
      var out := Generation(draw, maxLen, minLen, fallback);
      if out.pw.Some? {
        EscapingGrows(out.pw.value);
        assert |out.pw.value| == out.requested[|out.requested| - 1];
      }
    }
  }

  /**
   No password comes back exactly when the limits contradict each other, the last draw fails, or all
   eight draws are too long on the wire.
   */
  lemma GenerationFailsIff(draw: Draw, maxLen: Uint, minLen: Uint, fallback: int)
    ensures var out := Generation(draw, maxLen, minLen, fallback);
            var last := |out.requested| - 1;
            out.pw.None? <==>
              || FirstLength(maxLen, minLen, fallback).None?
              || (last >= 0 && draw(last, out.requested[last]).None?)
              || (last + 1 == RETRIES && forall k :: 0 <= k < RETRIES ==> TooLong(draw, k, out.requested[k], maxLen))
  {
    var first := FirstLength(maxLen, minLen, fallback);
    if first.Some? {
      AttemptsExplained(draw, [], RETRIES, first.value, maxLen, FloorOf(minLen));
      SomeDraw(draw, first.value, maxLen, FloorOf(minLen));
    }
  }

  lemma SomeDraw(draw: Draw, length: int, maxLen: Uint, floor: int)
    requires length >= floor
    ensures |Attempts(draw, [], RETRIES, length, maxLen, floor).requested| > 0
  {
    LongerRequests(draw, [length], RETRIES - 1, if TooLong(draw, 0, length, maxLen) then Shrunk(draw(0, length).value, length, maxLen, floor) else length, maxLen, floor);
  }

  lemma {:induction false} LongerRequests(draw: Draw, requested: seq<int>, left: nat, length: int, maxLen: Uint, floor: int)
    ensures |Attempts(draw, requested, left, length, maxLen, floor).requested| >= |requested|
    decreases left
  {
    if left > 0 && TooLong(draw, |requested|, length, maxLen) {
      LongerRequests(draw, requested + [length], left - 1, Shrunk(draw(|requested|, length).value, length, maxLen, floor), maxLen, floor);
    }
  }

  /** What is asked for first: eight below a reported maximum, else the fallback or twenty, and never below the minimum or eight. */
  lemma FirstRequest(maxLen: Uint, minLen: Uint, fallback: int)
    ensures var least := if Signed(minLen) > 8 then Signed(minLen) else 8;
            var wanted := if maxLen != 0 then Signed(maxLen) - 8 else if fallback > 0 then fallback else 20;
            var first := FirstLength(maxLen, minLen, fallback);
            && (first.None? <==> maxLen != 0 && Signed(maxLen) < least)
            && (first.Some? ==> first.value == if wanted > least then wanted else least)
  {
  }

  /** After a draw that is too long, the next length is smaller by the excess, unless the floor is reached. */
  lemma {:induction false} EachRequest(draw: Draw, requested: seq<int>, left: nat, length: int, maxLen: Uint, floor: int, k: nat)
    requires k + 1 < |Attempts(draw, requested, left, length, maxLen, floor).requested|
    requires |requested| <= k
    ensures var out := Attempts(draw, requested, left, length, maxLen, floor).requested;
            TooLong(draw, k, out[k], maxLen) && draw(k, out[k]).Some?
            && var next := out[k] - (EscapedLen(draw(k, out[k]).value) - Signed(maxLen));
            out[k + 1] == if next > floor then next else floor
    decreases left
  {
    if TooLong(draw, |requested|, length, maxLen) && left > 0 {
      var next := Shrunk(draw(|requested|, length).value, length, maxLen, floor);
      Follows(draw, requested + [length], left - 1, next, maxLen, floor);
      if k > |requested| {
        EachRequest(draw, requested + [length], left - 1, next, maxLen, floor, k);
      }
    } else {
      Follows(draw, requested, left, length, maxLen, floor);
    }
  }

  /** The lengths asked for so far stay, and the next one follows them. */
  lemma {:induction false} Follows(draw: Draw, requested: seq<int>, left: nat, length: int, maxLen: Uint, floor: int)
    ensures var out := Attempts(draw, requested, left, length, maxLen, floor).requested;
            && requested <= out && (left > 0 ==> |out| > |requested| && out[|requested|] == length)
            && (left == 0 || !TooLong(draw, |requested|, length, maxLen) ==> |out| <= |requested| + 1)
    decreases left
  {
    if left > 0 && TooLong(draw, |requested|, length, maxLen) {
      Follows(draw, requested + [length], left - 1, Shrunk(draw(|requested|, length).value, length, maxLen, floor), maxLen, floor);
    }
  }
}
