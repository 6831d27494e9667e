/** The `detail` text of a refusal: UTF-8, carried as octets, at most 512 of them. */
module Utf8 {
  import opened Options
  import opened Bits
  import opened Framing

  const MAX_DETAIL_SIZE: nat := 512

  // ------------------------------------------- the grammar of section 4 of RFC 3629

  predicate In(b: byte, lo: int, hi: int) {
    lo <= b as int <= hi
  }

  /** UTF8-tail. */
  predicate IsTail(b: byte) {
    In(b, 0x80, 0xBF)
  }

  /** UTF8-char, by its length. */
  predicate IsChar(c: seq<byte>) {
    match |c|
    case 1 => In(c[0], 0x00, 0x7F)
    case 2 => In(c[0], 0xC2, 0xDF) && IsTail(c[1])
    case 3 =>
      || (In(c[0], 0xE0, 0xE0) && In(c[1], 0xA0, 0xBF) && IsTail(c[2]))
      || (In(c[0], 0xE1, 0xEC) && IsTail(c[1]) && IsTail(c[2]))
      || (In(c[0], 0xED, 0xED) && In(c[1], 0x80, 0x9F) && IsTail(c[2]))
      || (In(c[0], 0xEE, 0xEF) && IsTail(c[1]) && IsTail(c[2]))
    case 4 =>
      || (In(c[0], 0xF0, 0xF0) && In(c[1], 0x90, 0xBF) && IsTail(c[2]) && IsTail(c[3]))
      || (In(c[0], 0xF1, 0xF3) && IsTail(c[1]) && IsTail(c[2]) && IsTail(c[3]))
      || (In(c[0], 0xF4, 0xF4) && In(c[1], 0x80, 0x8F) && IsTail(c[2]) && IsTail(c[3]))
    case _ => false
  }

  /** UTF8-octets: any number of characters, one after the other. */
  ghost predicate IsText(t: seq<byte>)
    decreases |t|
  {
    t == [] || exists n :: 1 <= n <= |t| && IsChar(t[..n]) && IsText(t[n..])
  }

  // ------------------------------------------------------------- characters do not overlap

  /** The length a lead byte announces, 0 if it cannot lead a character. */
  function LengthFor(b: byte): nat {
    if In(b, 0x00, 0x7F) then 1
    else if In(b, 0xC2, 0xDF) then 2
    else if In(b, 0xE0, 0xEF) then 3
    else if In(b, 0xF0, 0xF4) then 4
    else 0
  }

  lemma LeadDecides(c: seq<byte>)
    requires IsChar(c)
    ensures 1 <= |c| <= 4 && LengthFor(c[0]) == |c| && !IsTail(c[0])
    ensures forall i :: 1 <= i < |c| ==> IsTail(c[i])
  {
  }

  /** A text starts with at most one character, so it is a text exactly when what follows that
      character is. */
  lemma AfterChar(t: seq<byte>, n: nat)
    requires 1 <= n <= |t| && IsChar(t[..n])
    ensures IsText(t) <==> IsText(t[n..])
  {
    if IsText(t) {
      var m :| 1 <= m <= |t| && IsChar(t[..m]) && IsText(t[m..]);
      LeadDecides(t[..n]);
      LeadDecides(t[..m]);
    }
  }

  lemma NoChar(t: seq<byte>)
    requires t != []
    requires LengthFor(t[0]) == 0 || LengthFor(t[0]) > |t| || !IsChar(t[..LengthFor(t[0])])
    ensures !IsText(t)
  {
    if IsText(t) {
      var m :| 1 <= m <= |t| && IsChar(t[..m]) && IsText(t[m..]);
      LeadDecides(t[..m]);
    }
  }

  // ---------------------------------------------------------------------- the bit tests

  lemma AndDoubled(a: nat, m: nat)
    ensures And(a, 2 * m) == 2 * And(a / 2, m)
  {
    assert 2 * m / 2 == m && 2 * m % 2 == 0;
  }

  lemma AndTimes8(a: nat, m: nat)
    ensures And(a, 8 * m) == 8 * And(a / 8, m)
  {
    AndDoubled(a, 4 * m);
    AndDoubled(a / 2, 2 * m);
    AndDoubled(a / 2 / 2, m);
  }

  /** The continuation test of the code. */
  lemma TailMask(b: nat)
    requires b < 256
    ensures And(b, 0xC0) == 0x80 <==> 0x80 <= b <= 0xBF
  {
    var m := 3;
    AndTimes8(b, 8 * m);
    AndTimes8(b / 8, m);
    Low(b / 8 / 8, m + 1);
  }

  lemma Low(b: nat, size: nat)
    requires size in {4, 8, 16, 32, 64}
    ensures And(b, size - 1) == b % size
  {
    assert IsPowerOfTwo(4);
    assert IsPowerOfTwo(8);
    assert IsPowerOfTwo(16);
    assert IsPowerOfTwo(32);
    assert IsPowerOfTwo(64);
    MaskIsRemainder(b, size);
  }

  // ------------------------------------------------------------------- the validator

  /** The code point so far with one more continuation byte shifted in below it. */
  function ShiftIn(cp: nat, b: byte): nat {
    cp * 64 + b as int % 64
  }

  function CodePoint(c: seq<byte>, lead: nat): nat {
    if |c| <= 1 then lead else ShiftIn(CodePoint(c[..|c| - 1], lead), c[|c| - 1])
  }

  predicate InRange(cp: nat, len: nat) {
    !(len == 3 && cp < 0x800) && !(len == 4 && (cp < 0x10000 || cp > 0x10FFFF)) && !(0xD800 <= cp <= 0xDFFF)
  }

  /** Decoding and checking the code point draws the same line as the grammar's byte ranges. */
  lemma RangeIsGrammar(c: seq<byte>, lead: nat)
    requires |c| in {2, 3, 4} && LengthFor(c[0]) == |c|
    requires lead == c[0] as int - (if |c| == 2 then 0xC0 else if |c| == 3 then 0xE0 else 0xF0)
    ensures IsChar(c) <==> (forall i :: 1 <= i < |c| ==> IsTail(c[i])) && InRange(CodePoint(c, lead), |c|)
  {
    if forall i :: 1 <= i < |c| ==> IsTail(c[i]) {
      assert c[..|c| - 1][..|c| - 2] == c[..|c| - 2];
      assert IsTail(c[1]);
      if |c| == 2 {
        assert CodePoint(c, lead) == lead * 64 + (c[1] as int - 0x80);
      } else if |c| == 3 {
        Point3(c, lead);
      } else {
        Point4(c, lead);
      }
    }
  }

  lemma Point3(c: seq<byte>, lead: nat)
    requires |c| == 3 && IsTail(c[1]) && IsTail(c[2])
    ensures CodePoint(c, lead) == (lead * 64 + (c[1] as int - 0x80)) * 64 + (c[2] as int - 0x80)
  {
    assert CodePoint(c[..2][..1], lead) == lead;
    assert CodePoint(c[..2], lead) == lead * 64 + (c[1] as int - 0x80);
  }

  lemma Point4(c: seq<byte>, lead: nat)
    requires |c| == 4 && IsTail(c[1]) && IsTail(c[2]) && IsTail(c[3])
    ensures CodePoint(c, lead) ==
            ((lead * 64 + (c[1] as int - 0x80)) * 64 + (c[2] as int - 0x80)) * 64 + (c[3] as int - 0x80)
  {
    Point3(c[..3], lead);
  }

  /** Accepts exactly the texts of the grammar. */
  method IsUtf8(text: seq<byte>) returns (ok: bool)
    ensures ok <==> IsText(text)
  {
    var i := 0;
    while i < |text|
      invariant i <= |text|
      invariant IsText(text) <==> IsText(text[i..])
    {
      var len := CharLength(text[i..]);
      if len == 0 {
        return false;
      }
      assert text[i..][len..] == text[i + len..];
      i := i + len;
    }
    assert text[i..] == [];
    ok := true;
  }

  /** The length of the character a text starts with; 0 if it starts with none. */
  method CharLength(t: seq<byte>) returns (len: nat)
    requires t != []
    ensures len > 0 ==> len <= |t| && IsChar(t[..len]) && (IsText(t) <==> IsText(t[len..]))
    ensures len == 0 ==> !IsText(t)
  {
    var lead;
    len, lead := Lead(t[0]);
    if len == 1 {
      AfterChar(t, 1);
      return;
    }
    if len == 0 || len > |t| {
      NoChar(t);
      return 0;
    }
    var ok := IsMultibyte(t[..len], lead);
    if !ok {
      NoChar(t);
      return 0;
    }
    AfterChar(t, len);
  }

  method LowBits(b: nat, mask: nat) returns (low: nat)
    requires mask + 1 in {4, 8, 16, 32, 64}
    ensures low == b % (mask + 1)
  {
    Low(b, mask + 1);
    low := And(b, mask);
  }

  /** The length a lead byte announces and the code point bits it carries. */
  method Lead(b: byte) returns (len: nat, lead: nat)
    ensures len == LengthFor(b)
    ensures len >= 2 ==> lead == b as int - (if len == 2 then 0xC0 else if len == 3 then 0xE0 else 0xF0)
  {
    var c := b as int;
    if c < 0x80 {
      return 1, 0;
    }
    if 0xC2 <= c <= 0xDF {
      lead := LowBits(c, 0x1F);
      return 2, lead;
    } else if 0xE0 <= c <= 0xEF {
      lead := LowBits(c, 0x0F);
      return 3, lead;
    } else if 0xF0 <= c <= 0xF4 {
      lead := LowBits(c, 0x07);
      return 4, lead;
    }
    return 0, 0;
  }

  method IsMultibyte(c: seq<byte>, lead: nat) returns (ok: bool)
    requires |c| in {2, 3, 4} && LengthFor(c[0]) == |c|
    requires lead == c[0] as int - (if |c| == 2 then 0xC0 else if |c| == 3 then 0xE0 else 0xF0)
    ensures ok <==> IsChar(c)
  {
    RangeIsGrammar(c, lead);
    var cp;
    ok, cp := Decode(c, lead);
    if (|c| == 3 && cp < 0x800) || (|c| == 4 && (cp < 0x10000 || cp > 0x10FFFF)) || 0xD800 <= cp <= 0xDFFF {
      ok := false;
    }
  }

  method HasTailBits(b: nat) returns (tail: bool)
    requires b < 256
    ensures tail <==> 0x80 <= b <= 0xBF
  {
    TailMask(b);
    tail := And(b, 0xC0) == 0x80;
  }

  /** Shifts the continuation bytes of a character into its code point, giving up on a byte
      that is none. */
  method Decode(c: seq<byte>, lead: nat) returns (ok: bool, cp: nat)
    requires |c| >= 1
    ensures ok <==> forall i :: 1 <= i < |c| ==> IsTail(c[i])
    ensures ok ==> cp == CodePoint(c, lead)
  {
    cp := lead;
    var k := 1;
    while k < |c|
      invariant 1 <= k <= |c|
      invariant forall i :: 1 <= i < k ==> IsTail(c[i])
      invariant cp == CodePoint(c[..k], lead)
    {
      var b := c[k] as int;
      var tail := HasTailBits(b);
      if !tail {
        return false, cp;
      }
      var low := LowBits(b, 0x3F);
      cp := cp * 64 + low;
      assert c[..k + 1][..k] == c[..k];
      k := k + 1;
    }
    assert c[..k] == c;
    ok := true;
  }

  // -------------------------------------------------------------------- truncation

  /** The text may be cut here: at its end, or before a byte that starts a character. */
  predicate Boundary(t: seq<byte>, s: nat)
    requires s <= |t|
  {
    s == |t| || !IsTail(t[s])
  }

  /** Inside the first character there is no boundary, and no text ends there. */
  lemma NoCutInside(t: seq<byte>, n: nat, s: nat)
    requires 0 < s < n <= |t| && IsChar(t[..n])
    ensures !IsText(t[..s]) && !Boundary(t, s)
  {
    LeadDecides(t[..n]);
    assert t[..n][s] == t[s] && t[..n][0] == t[..s][0];
    NoChar(t[..s]);
  }

  /** Behind the first character, only what follows it counts. */
  lemma CutBehind(t: seq<byte>, n: nat, s: nat)
    requires 1 <= n <= s <= |t| && IsChar(t[..n])
    ensures IsText(t[..s]) <==> IsText(t[n..][..s - n])
    ensures Boundary(t, s) <==> Boundary(t[n..], s - n)
  {
    assert t[n..][..s - n] == t[..s][n..] && t[..s][..n] == t[..n];
    AfterChar(t[..s], n);
  }

  /** In a text, the boundaries are exactly the places where the part before is a text. */
  lemma {:induction false} BoundariesAreCuts(t: seq<byte>, s: nat)
    requires IsText(t) && s <= |t|
    ensures IsText(t[..s]) <==> Boundary(t, s)
    decreases |t|
  {
    if t != [] {
      var n :| 1 <= n <= |t| && IsChar(t[..n]) && IsText(t[n..]);
      if s >= n {
        BoundariesAreCuts(t[n..], s - n);
        CutBehind(t, n, s);
      } else if s > 0 {
        NoCutInside(t, n, s);
      } else {
        LeadDecides(t[..n]);
        assert t[..n][0] == t[0];
      }
    }
  }

  /** A boundary is never more than three bytes back. */
  lemma {:induction false} BoundaryIsNear(t: seq<byte>, s: nat)
    requires IsText(t) && s <= |t|
    ensures exists b :: 0 <= b <= s && s - b <= 3 && Boundary(t, b)
    decreases |t|
  {
    if t == [] {
      assert Boundary(t, s);
      return;
    }
    var n :| 1 <= n <= |t| && IsChar(t[..n]) && IsText(t[n..]);
    LeadDecides(t[..n]);
    if s >= n {
      BoundaryIsNear(t[n..], s - n);
      var b :| 0 <= b <= s - n && s - n - b <= 3 && Boundary(t[n..], b);
      assert b + n < |t| ==> t[n..][b] == t[b + n];
      assert Boundary(t, b + n);
    } else {
      assert t[..n][0] == t[0] && Boundary(t, 0);
    }
  }

  /** The last boundary among the first `MAX_DETAIL_SIZE` bytes; 0 if there is none. */
  ghost predicate IsCut(t: seq<byte>, size: nat) {
    && size <= |t| && size <= MAX_DETAIL_SIZE
    && (size == 0 || Boundary(t, size))
    && forall s :: size < s <= |t| && s <= MAX_DETAIL_SIZE ==> !Boundary(t, s)
  }

  /** Puts the text into a response, cut to size: nothing for an absent or empty text. */
  method SetReason(detail: Option<seq<byte>>) returns (out: Option<seq<byte>>)
    ensures out.None? <==> detail.None? || detail.value == []
    ensures out.Some? ==> out.value <= detail.value && IsCut(detail.value, |out.value|)
  {
    if detail.None? || detail.value == [] {
      return None;
    }
    var t := detail.value;
    var size: nat := Min(|t|, MAX_DETAIL_SIZE);
    while size > 0 && size < |t| && And(t[size] as int, 0xC0) == 0x80
      invariant 0 <= size <= |t| && size <= MAX_DETAIL_SIZE
      invariant forall s :: size < s <= |t| && s <= MAX_DETAIL_SIZE ==> !Boundary(t, s)
    {
      TailMask(t[size] as int);
      size := size - 1;
    }
    if size < |t| {
      TailMask(t[size] as int);
    }
    out := Some(t[..size]);
  }

  /** Takes the text out of a response: it is passed on unchanged or not at all. */
  method GetReason(received: Option<seq<byte>>) returns (detail: Option<seq<byte>>)
    ensures detail == if received.Some? && received.value != [] && IsText(received.value) then received else None
  {
    detail := None;
    if received.Some? && |received.value| > 0 {
      var ok := IsUtf8(received.value);
      if ok {
        detail := received;
      }
    }
  }

  /** A valid text is cut to its longest valid prefix of at most 512 bytes: all of it when it
      fits, at least 509 bytes when it does not.  Being a text, that prefix is what the receiver
      takes out. */
  lemma CutIsLongestText(t: seq<byte>, size: nat)
    requires IsText(t) && IsCut(t, size)
    ensures IsText(t[..size])
    ensures forall s :: 0 <= s <= |t| && s <= MAX_DETAIL_SIZE && IsText(t[..s]) ==> s <= size
    ensures if |t| <= MAX_DETAIL_SIZE then size == |t| else size >= MAX_DETAIL_SIZE - 3
  {
    assert t[..0] == [];
    BoundariesAreCuts(t, size);
    forall s | 0 <= s <= |t| && s <= MAX_DETAIL_SIZE && IsText(t[..s]) ensures s <= size {
      BoundariesAreCuts(t, s);
    }
    if |t| > MAX_DETAIL_SIZE {
      BoundaryIsNear(t, MAX_DETAIL_SIZE);
    } else {
      assert Boundary(t, |t|);
    }
  }
}
