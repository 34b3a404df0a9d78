/** Hexadecimal text: the scalar and the vector formatters, the canonical form, the
    tolerant parser, and the compat validators. */
module Hex {
  import opened Bytes

  const HEXD := "0123456789abcdef"

  function HexDigit(n: nat): char
    requires n < 16
  {
    HEXD[n]
  }

  // ---- formatters ----------------------------------------------------------

  /** Two digits per byte, high nibble first. */
  function Hex32(b: Uuid): (s: string)
    ensures |s| == 32
  {
    seq(32, i requires 0 <= i < 32 => HexDigit(if i % 2 == 0 then b[i / 2] / 16 else b[i / 2] % 16))
  }

  /** The byte-to-two-digits table module start builds. */
  method BuildTable() returns (lut: array<char>)
    ensures lut.Length == 512 && fresh(lut)
    ensures forall i :: 0 <= i < 256 ==> lut[2 * i] == HexDigit(i / 16) && lut[2 * i + 1] == HexDigit(i % 16)
  {
    hide HexDigit;
    lut := new char[512](_ => '0');
    for i := 0 to 256
      invariant forall k :: 0 <= k < i ==> lut[2 * k] == HexDigit(k / 16) && lut[2 * k + 1] == HexDigit(k % 16)
    {
      lut[i * 2] := HexDigit(i / 16);
      lut[i * 2 + 1] := HexDigit(i % 16);
    }
  }

  lemma Hex32At(b: Uuid, i: nat)
    requires i < 16
    ensures Hex32(b)[2 * i] == HexDigit(b[i] / 16) && Hex32(b)[2 * i + 1] == HexDigit(b[i] % 16)
  {
    hide HexDigit;
    assert (2 * i) / 2 == i && (2 * i + 1) / 2 == i;
  }

  /** fu_hex32_scalar */
  method HexScalar(lut: array<char>, b: Uuid, o: array<char>)
    requires lut.Length == 512 && o.Length == 32 && lut != o
    requires forall i :: 0 <= i < 256 ==> lut[2 * i] == HexDigit(i / 16) && lut[2 * i + 1] == HexDigit(i % 16)
    modifies o
    ensures o[..] == Hex32(b)
  {
    hide HexDigit, Hex32;
    for i := 0 to 16
      invariant forall k :: 0 <= k < 2 * i ==> o[k] == Hex32(b)[k]
      invariant lut[..] == old(lut[..])
    {
      var v: int := b[i];
      o[i * 2] := lut[v * 2];
      o[i * 2 + 1] := lut[v * 2 + 1];
      assert lut[..][2 * v] == HexDigit(v / 16) && lut[..][2 * v + 1] == HexDigit(v % 16);
      Hex32At(b, i);
    }
  }

  type Reg = s: seq<byte> | |s| == 16 witness seq(16, _ => 0)
  type Text16 = s: string | |s| == 16 witness seq(16, _ => '0')

  /** _mm_srli_epi16(v, 4): eight little-endian 16-bit lanes shift, so the low nibble
      of each odd byte falls into the byte below. */
  function ShiftLanes(v: Reg): Reg {
    seq<byte>(16, i requires 0 <= i < 16 =>
      var lane: int := v[i / 2 * 2] + (v[i / 2 * 2 + 1] as int) * 256;
      if i % 2 == 0 then lane / 16 % 256 else lane / 16 / 256)
  }

  function Mask(v: Reg): Reg {
    seq<byte>(16, i requires 0 <= i < 16 => v[i] % 16)
  }

  /** _mm_shuffle_epi8: an index with its top bit set selects zero. */
  function Shuffle(lut: Text16, v: Reg): Text16 {
    seq(16, i requires 0 <= i < 16 => if v[i] >= 128 then 0 as char else lut[v[i] % 16])
  }

  /** _mm_unpacklo_epi8 and _mm_unpackhi_epi8 */
  function Interleave(a: Text16, b: Text16, from: nat): Text16
    requires from <= 8
  {
    seq(16, i requires 0 <= i < 16 => if i % 2 == 0 then a[from + i / 2] else b[from + i / 2])
  }

  function HexSsse3(b: Uuid): string {
    var hh := Shuffle(HEXD, Mask(ShiftLanes(b)));
    var lh := Shuffle(HEXD, Mask(b));
    Interleave(hh, lh, 0) + Interleave(hh, lh, 8)
  }

  /** vshrq_n_u8, and vqtbl1q_u8, where an index past the table selects zero. */
  function ShiftBytes(v: Reg): Reg {
    seq<byte>(16, i requires 0 <= i < 16 => v[i] / 16)
  }

  function TableLookup(lut: Text16, v: Reg): Text16 {
    seq(16, i requires 0 <= i < 16 => if v[i] < 16 then lut[v[i]] else 0 as char)
  }

  function HexNeon(b: Uuid): string {
    var hh := TableLookup(HEXD, ShiftBytes(b));
    var lh := TableLookup(HEXD, Mask(b));
    Interleave(hh, lh, 0) + Interleave(hh, lh, 8)
  }

  lemma LaneShift(lo: byte, hi: byte)
    ensures (lo + (hi as int) * 256) / 16 % 256 % 16 == lo / 16
    ensures (lo + (hi as int) * 256) / 16 / 256 % 16 == hi / 16
  {
    var q := lo / 16 + (hi as int) * 16;
    assert (lo + (hi as int) * 256) / 16 == q;
    assert q == (hi / 16) as int * 256 + (hi % 16 * 16 + lo / 16);
  }

  /** Shifting 16-bit lanes and masking is shifting bytes. */
  lemma MaskedLanes(b: Uuid)
    ensures Mask(ShiftLanes(b)) == ShiftBytes(b)
    ensures forall i :: 0 <= i < 16 ==> ShiftBytes(b)[i] == b[i] / 16 && Mask(b)[i] == b[i] % 16
  {
    forall i | 0 <= i < 16
      ensures Mask(ShiftLanes(b))[i] == b[i] / 16
    {
      LaneShift(b[i / 2 * 2], b[i / 2 * 2 + 1]);
    }
  }

  /** On nibbles both shuffles are table lookups. */
  lemma ShuffleIsLookup(lut: Text16, v: Reg)
    requires forall i :: 0 <= i < 16 ==> v[i] < 16
    ensures Shuffle(lut, v) == TableLookup(lut, v)
    ensures forall i :: 0 <= i < 16 ==> TableLookup(lut, v)[i] == lut[v[i]]
  {
  }

  lemma Interleaved(a: Text16, b: Text16, k: nat)
    requires k < 32
    ensures (Interleave(a, b, 0) + Interleave(a, b, 8))[k] == if k % 2 == 0 then a[k / 2] else b[k / 2]
  {
    if k >= 16 {
      assert (k - 16) / 2 + 8 == k / 2 && (k - 16) % 2 == k % 2;
    }
  }

  /** The vector formatters write what the table loop writes, on every input. */
  lemma VectorIsScalar(b: Uuid)
    ensures HexSsse3(b) == Hex32(b) == HexNeon(b)
  {
    hide Mask, ShiftLanes, ShiftBytes, Shuffle, TableLookup, Interleave;
    MaskedLanes(b);
    ShuffleIsLookup(HEXD, ShiftBytes(b));
    ShuffleIsLookup(HEXD, Mask(b));
    var hh, lh := TableLookup(HEXD, ShiftBytes(b)), TableLookup(HEXD, Mask(b));
    var s, n := Hex32(b), HexNeon(b);
    forall k | 0 <= k < 32
      ensures n[k] == s[k]
    {
      Interleaved(hh, lh, k);
    }
  }

  /** fu_format36: 8-4-4-4-12 */
  function Format36(b: Uuid): (s: string)
    ensures |s| == 36
  {
    var h := Hex32(b);
    h[..8] + "-" + h[8..12] + "-" + h[12..16] + "-" + h[16..20] + "-" + h[20..]
  }

  // ---- parser --------------------------------------------------------------

  /** fu_nib_lut: the value of a hex digit in either case, -1 for anything else. */
  function Nibble(c: char): (n: int)
    ensures -1 <= n < 16
  {
    if '0' <= c <= '9' then (c - '0') as int
    else if 'a' <= c <= 'f' then 10 + (c - 'a') as int
    else if 'A' <= c <= 'F' then 10 + (c - 'A') as int
    else -1
  }

  function Lower(c: char): char {
    if 'A' <= c <= 'Z' then (c as int + 32) as char else c
  }

  function LowerAll(s: string): (t: string)
    ensures |t| == |s|
  {
    seq(|s|, i requires 0 <= i < |s| => Lower(s[i]))
  }

  const URN := "urn:uuid:"

  function StripUrn(s: string): string {
    if |s| >= 9 && LowerAll(s[..9]) == URN then s[9..] else s
  }

  function StripBraces(s: string): string {
    if |s| >= 2 && s[0] == '{' && s[|s| - 1] == '}' then s[1..|s| - 1] else s
  }

  /** One of the two passes. */
  function Pass(s: string): string { StripBraces(StripUrn(s)) }

  function Strip(s: string): string { Pass(Pass(s)) }

  function ByteAt(s: string, pos: nat): Option<byte>
    requires pos + 1 < |s|
  {
    var hi, lo := Nibble(s[pos]), Nibble(s[pos + 1]);
    if hi < 0 || lo < 0 then None else Some(hi * 16 + lo)
  }

  /** Where byte i starts in the canonical form, and in bare hex. */
  function Pos36(i: nat): nat {
    2 * i + (if i >= 4 then 1 else 0) + (if i >= 6 then 1 else 0)
      + (if i >= 8 then 1 else 0) + (if i >= 10 then 1 else 0)
  }

  predicate Dashes(s: string)
    requires |s| == 36
  {
    s[8] == '-' && s[13] == '-' && s[18] == '-' && s[23] == '-'
  }

  /** The unwrapped forms: canonical and bare. */
  function ParseCore(s: string): Option<Uuid> {
    if |s| == 36 then
      if Dashes(s) && forall i :: 0 <= i < 16 ==> ByteAt(s, Pos36(i)).Some? then
        Some(seq<byte>(16, i requires 0 <= i < 16 && ByteAt(s, Pos36(i)).Some? => ByteAt(s, Pos36(i)).value))
      else None
    else if |s| == 32 then
      if forall i :: 0 <= i < 16 ==> ByteAt(s, 2 * i).Some? then
        Some(seq<byte>(16, i requires 0 <= i < 16 && ByteAt(s, 2 * i).Some? => ByteAt(s, 2 * i).value))
      else None
    else None
  }

  function Parse(s: string): Option<Uuid> { ParseCore(Strip(s)) }

  /** The two unwrapped forms, byte by byte. */
  method ParseInner(s: string, out: array<byte>) returns (ok: bool)
    requires out.Length == 16
    modifies out
    ensures ok <==> ParseCore(s).Some?
    ensures ok ==> out[..] == ParseCore(s).value
  {
    hide Nibble;
    if |s| == 36 {
      if s[8] != '-' || s[13] != '-' || s[18] != '-' || s[23] != '-' {
        return false;
      }
      for i := 0 to 16
        invariant forall k :: 0 <= k < i ==> ByteAt(s, Pos36(k)) == Some(out[k])
      {
        var v := ByteAt(s, Pos36(i));
        if v.None? {
          return false;
        }
        out[i] := v.value;
      }
      return true;
    }
    if |s| == 32 {
      for i := 0 to 16
        invariant forall k :: 0 <= k < i ==> ByteAt(s, 2 * k) == Some(out[k])
      {
        var v := ByteAt(s, 2 * i);
        if v.None? {
          return false;
        }
        out[i] := v.value;
      }
      return true;
    }
    return false;
  }

  /** fu_parse */
  method ParseUuid(text: string, out: array<byte>) returns (ok: bool)
    requires out.Length == 16
    modifies out
    ensures ok <==> Parse(text).Some?
    ensures ok ==> out[..] == Parse(text).value
  {
    hide ParseCore;
    var s := text;
    for pass := 0 to 2
      invariant s == if pass == 0 then text else if pass == 1 then Pass(text) else Strip(text)
    {
      if |s| >= 9 && (s[0] == 'u' || s[0] == 'U') && LowerAll(s[..9]) == URN {
        s := s[9..];
      } else {
        assert |s| >= 9 ==> LowerAll(s[..9])[0] == Lower(s[0]);
      }
      if |s| >= 2 && s[0] == '{' && s[|s| - 1] == '}' {
        s := s[1..|s| - 1];
      }
    }
    ok := ParseInner(s, out);
  }

  // ---- round trips ---------------------------------------------------------

  lemma NibbleOfDigit(n: nat)
    requires n < 16
    ensures Nibble(HexDigit(n)) == n
  {
  }

  /** A hex digit is, up to case, the digit of its value. */
  lemma DigitOfNibble(c: char)
    ensures Nibble(c) >= 0 ==> HexDigit(Nibble(c)) == Lower(c)
    ensures Nibble(c) == Nibble(Lower(c))
  {
    if 'A' <= c <= 'F' {
      assert Lower(c) == (c as int + 32) as char;
    }
  }

  lemma Hex32Bytes(b: Uuid, i: nat)
    requires i < 16
    ensures ByteAt(Hex32(b), 2 * i) == Some(b[i])
  {
    Hex32At(b, i);
    NibbleOfDigit(b[i] / 16);
    NibbleOfDigit(b[i] % 16);
  }

  lemma Format36At(b: Uuid, i: nat)
    requires i < 16
    ensures Format36(b)[Pos36(i)] == Hex32(b)[2 * i] && Format36(b)[Pos36(i) + 1] == Hex32(b)[2 * i + 1]
  {
    hide Hex32, HexDigit;
    var f, h := Format36(b), Hex32(b);
    assert f[..8] == h[..8] && f[9..13] == h[8..12] && f[14..18] == h[12..16];
    assert f[19..23] == h[16..20] && f[24..] == h[20..];
  }

  /** Printing then parsing gives the bytes back, from both unwrapped forms. */
  lemma ParseOfFormat(b: Uuid)
    ensures ParseCore(Format36(b)) == Some(b) && Parse(Format36(b)) == Some(b)
    ensures ParseCore(Hex32(b)) == Some(b) && Parse(Hex32(b)) == Some(b)
  {
    hide HexDigit, Nibble, Format36, Hex32, StripUrn, StripBraces;
    var f, h := Format36(b), Hex32(b);
    forall i | 0 <= i < 16
      ensures ByteAt(f, Pos36(i)) == Some(b[i]) && ByteAt(h, 2 * i) == Some(b[i])
    {
      Hex32Bytes(b, i);
      Format36At(b, i);
    }
    Format36Dash(b, 8);
    Format36Dash(b, 13);
    Format36Dash(b, 18);
    Format36Dash(b, 23);
    assert ParseCore(f).value == b;
    assert ParseCore(h).value == b;
    CoreNeedsNoStrip(f);
    CoreNeedsNoStrip(h);
  }

  /** No unwrapped form is mistaken for a wrapped one. */
  lemma CoreNeedsNoStrip(s: string)
    requires ParseCore(s).Some?
    ensures StripUrn(s) == s && StripBraces(s) == s && Strip(s) == s
    ensures s[0] != '{' && s[0] != 'u' && s[0] != 'U'
  {
    if |s| == 36 {
      assert ByteAt(s, Pos36(0)).Some?;
    } else {
      assert ByteAt(s, 2 * 0).Some?;
    }
    assert Nibble(s[0]) >= 0;
    assert LowerAll(s[..9])[0] == Lower(s[0]);
  }

  /** Letter case never matters. */
  lemma CaseInsensitive(s: string, t: string)
    requires LowerAll(s) == LowerAll(t)
    ensures Parse(s) == Parse(t)
  {
    PassCase(s, t);
    PassCase(Pass(s), Pass(t));
    CoreCase(Strip(s), Strip(t));
  }

  lemma SameLower(s: string, t: string, i: nat)
    requires LowerAll(s) == LowerAll(t) && i < |s|
    ensures Lower(s[i]) == Lower(t[i])
  {
    assert LowerAll(s)[i] == LowerAll(t)[i];
  }

  lemma SliceCase(s: string, t: string, a: nat, b: nat)
    requires LowerAll(s) == LowerAll(t) && a <= b <= |s|
    ensures |s| == |t| && LowerAll(s[a..b]) == LowerAll(t[a..b])
  {
    assert |LowerAll(s)| == |s| && |LowerAll(t)| == |t|;
    assert LowerAll(s[a..b]) == LowerAll(s)[a..b];
    assert LowerAll(t[a..b]) == LowerAll(t)[a..b];
  }

  lemma PassCase(s: string, t: string)
    requires LowerAll(s) == LowerAll(t)
    ensures LowerAll(Pass(s)) == LowerAll(Pass(t))
  {
    assert |LowerAll(s)| == |s| && |LowerAll(t)| == |t|;
    var u, v := StripUrn(s), StripUrn(t);
    if |s| >= 9 {
      SliceCase(s, t, 0, 9);
      assert s[0..9] == s[..9] && t[0..9] == t[..9];
      SliceCase(s, t, 9, |s|);
      assert s[9..|s|] == s[9..] && t[9..|t|] == t[9..];
    }
    assert |LowerAll(u)| == |u| && |LowerAll(v)| == |v|;
    if |u| >= 2 {
      SameLower(u, v, 0);
      SameLower(u, v, |u| - 1);
      SliceCase(u, v, 1, |u| - 1);
    }
  }

  lemma CoreCase(s: string, t: string)
    requires LowerAll(s) == LowerAll(t)
    ensures ParseCore(s) == ParseCore(t)
  {
    assert |LowerAll(s)| == |s| && |LowerAll(t)| == |t|;
    forall i | 0 <= i < |s|
      ensures Nibble(s[i]) == Nibble(t[i]) && (s[i] == '-' <==> t[i] == '-')
    {
      SameLower(s, t, i);
      DigitOfNibble(s[i]);
      DigitOfNibble(t[i]);
    }
    if |s| == 36 {
      forall i | 0 <= i < 16 ensures ByteAt(s, Pos36(i)) == ByteAt(t, Pos36(i)) { }
      if ParseCore(s).Some? { assert ParseCore(s).value == ParseCore(t).value; }
    } else if |s| == 32 {
      forall i | 0 <= i < 16 ensures ByteAt(s, 2 * i) == ByteAt(t, 2 * i) { }
      if ParseCore(s).Some? { assert ParseCore(s).value == ParseCore(t).value; }
    }
  }

  /** Parsing then printing lower-cases the canonical form: the normal form. */
  lemma FormatOfParse(s: string)
    requires |Strip(s)| == 36 && Parse(s).Some?
    ensures Format36(Parse(s).value) == LowerAll(Strip(s))
  {
    hide Format36, LowerAll, Strip, HexDigit, Nibble, Lower, Hex32;
    var c, b := Strip(s), Parse(s).value;
    forall k | 0 <= k < 36
      ensures Format36(b)[k] == Lower(c[k])
    {
      if k == 8 || k == 13 || k == 18 || k == 23 {
        Format36Dash(b, k);
        assert c[k] == '-';
      } else {
        PairOfParse(c, b, ByteOf(k));
      }
    }
    LowerAllIs(c, Format36(b));
  }

  lemma Format36Dash(b: Uuid, k: nat)
    requires k == 8 || k == 13 || k == 18 || k == 23
    ensures Format36(b)[k] == '-' == Lower('-')
  {
  }

  lemma LowerAllIs(c: string, f: string)
    requires |f| == |c| && forall k :: 0 <= k < |c| ==> f[k] == Lower(c[k])
    ensures f == LowerAll(c)
  {
  }

  lemma PairOfParse(c: string, b: Uuid, i: nat)
    requires |c| == 36 && ParseCore(c) == Some(b) && i < 16
    ensures Format36(b)[Pos36(i)] == Lower(c[Pos36(i)]) && Format36(b)[Pos36(i) + 1] == Lower(c[Pos36(i) + 1])
  {
    hide Format36, Nibble, HexDigit, Lower;
    var p := Pos36(i);
    Format36At(b, i);
    assert ByteAt(c, p) == Some(b[i]);
    Hex32At(b, i);
    DigitOfNibble(c[p]);
    DigitOfNibble(c[p + 1]);
    assert b[i] / 16 == Nibble(c[p]) && b[i] % 16 == Nibble(c[p + 1]);
  }

  lemma BareOfParse(c: string, b: Uuid)
    requires |c| == 32 && ParseCore(c) == Some(b)
    ensures Hex32(b) == LowerAll(c)
  {
    hide LowerAll, HexDigit, Nibble, Lower;
    forall k | 0 <= k < 32
      ensures Hex32(b)[k] == Lower(c[k])
    {
      var i := k / 2;
      assert ByteAt(c, 2 * i) == Some(b[i]);
      Hex32At(b, i);
      DigitOfNibble(c[2 * i]);
      DigitOfNibble(c[2 * i + 1]);
      assert b[i] / 16 == Nibble(c[2 * i]) && b[i] % 16 == Nibble(c[2 * i + 1]);
    }
    LowerAllIs(c, Hex32(b));
  }

  /** The text is, up to letter case, the canonical form or the bare hex of b. */
  predicate Spelled(c: string, b: Uuid) { LowerAll(c) == Format36(b) || LowerAll(c) == Hex32(b) }

  /** The unwrapped forms are exactly those texts. */
  lemma CoreIff(c: string, b: Uuid)
    ensures ParseCore(c) == Some(b) <==> Spelled(c, b)
  {
    hide Format36, LowerAll, Strip, Hex32, ParseCore;
    ParseOfFormat(b);
    CoreNeedsNoStrip(Format36(b));
    CoreNeedsNoStrip(Hex32(b));
    FormatOfParse(Format36(b));
    BareOfParse(Hex32(b), b);
    if Spelled(c, b) {
      CoreCase(c, if LowerAll(c) == Format36(b) then Format36(b) else Hex32(b));
    }
    if ParseCore(c) == Some(b) {
      CoreNeedsNoStrip(c);
      CoreLength(c);
      if |c| == 36 { FormatOfParse(c); } else { BareOfParse(c, b); }
    }
  }

  lemma CoreLength(c: string)
    requires ParseCore(c).Some?
    ensures |c| == 36 || |c| == 32
  {
  }

  /** The byte whose text covers position k of the canonical form. */
  function ByteOf(k: nat): (i: nat)
    requires k < 36 && k != 8 && k != 13 && k != 18 && k != 23
    ensures i < 16 && (k == Pos36(i) || k == Pos36(i) + 1)
  {
    if k < 8 then k / 2 else if k < 13 then (k - 1) / 2 else if k < 18 then (k - 2) / 2
    else if k < 23 then (k - 3) / 2 else (k - 4) / 2
  }

  // ---- the accepted language -----------------------------------------------

  /** Up to two layers, each an optional prefix around optional braces. */
  datatype Wrapping = Wrapping(urn1: string, braces1: bool, urn2: string, braces2: bool)

  predicate IsUrn(u: string) { u == "" || LowerAll(u) == URN }

  function Wrap(u: string, braces: bool, s: string): string {
    u + if braces then "{" + s + "}" else s
  }

  ghost predicate Wrapped(w: Wrapping, c: string, s: string) {
    IsUrn(w.urn1) && IsUrn(w.urn2) && s == Wrap(w.urn1, w.braces1, Wrap(w.urn2, w.braces2, c))
  }

  lemma StripUrnOf(u: string, s: string)
    requires IsUrn(u) && u != ""
    ensures StripUrn(u + s) == s && |u| == 9
  {
    assert |LowerAll(u)| == 9;
    assert (u + s)[..9] == u && (u + s)[9..] == s;
  }

  lemma NoUrn(s: string)
    requires |s| > 0 && s[0] != 'u' && s[0] != 'U'
    ensures StripUrn(s) == s
  {
    if |s| >= 9 {
      assert LowerAll(s[..9])[0] == Lower(s[0]);
    }
  }

  /** A layer around something that starts with neither prefix nor brace comes off in one pass. */
  lemma PassTakesLayer(u: string, braces: bool, c: string)
    requires IsUrn(u) && |c| > 0 && StripUrn(c) == c && c[0] != '{' && c[0] != 'u' && c[0] != 'U'
    ensures Pass(Wrap(u, braces, c)) == c
  {
    var t := if braces then "{" + c + "}" else c;
    NoUrn(t);
    if u != "" {
      StripUrnOf(u, t);
    } else {
      assert u + t == t;
    }
    if braces {
      assert t[1..|t| - 1] == c;
    }
  }

  /** The first pass over two layers leaves the inner one, or already the form inside. */
  lemma FirstPass(u: string, braces: bool, w: string, inner: bool, c: string)
    requires IsUrn(u) && IsUrn(w)
    requires |c| > 0 && StripUrn(c) == c && c[0] != '{' && c[0] != 'u' && c[0] != 'U'
    ensures var t := Wrap(w, inner, c);
      Pass(Wrap(u, braces, t)) == t || Pass(Wrap(u, braces, t)) == c
  {
    var t := Wrap(w, inner, c);
    var x := if braces then "{" + t + "}" else t;
    if braces {
      NoUrn(x);
      assert x[1..|x| - 1] == t;
    }
    if u != "" {
      StripUrnOf(u, x);
      if !braces {
        if w == "" {
          NoUrn(t);
          PassTakesLayer(w, inner, c);
        } else {
          UrnHead(w);
        }
      }
    } else {
      assert Wrap(u, braces, t) == x;
      if !braces {
        PassTakesLayer(w, inner, c);
      }
    }
  }

  lemma UrnHead(u: string)
    requires IsUrn(u) && u != ""
    ensures u[0] == 'u' || u[0] == 'U'
  {
    assert |LowerAll(u)| == |u|;
    assert LowerAll(u)[0] == Lower(u[0]) == 'u';
  }

  /** Every composition of two layers around an unwrapped form is recovered. */
  lemma WrappedParses(w: Wrapping, c: string, s: string)
    requires Wrapped(w, c, s) && ParseCore(c).Some?
    ensures Parse(s) == ParseCore(c)
  {
    hide Pass, ParseCore, StripUrn, StripBraces;
    assert |c| > 0 by { CoreIsNotEmpty(c); }
    CoreNeedsNoStrip(c);
    FirstPass(w.urn1, w.braces1, w.urn2, w.braces2, c);
    PassTakesLayer(w.urn2, w.braces2, c);
    PassTakesLayer("", false, c);
    assert Wrap("", false, c) == c;
  }

  lemma CoreIsNotEmpty(c: string)
    requires ParseCore(c).Some?
    ensures |c| > 0
  {
  }

  lemma PassUnwraps(s: string) returns (u: string, braces: bool)
    ensures IsUrn(u) && s == Wrap(u, braces, Pass(s))
  {
    var t := StripUrn(s);
    u := if t == s then "" else s[..9];
    braces := Pass(s) != t;
    assert s == u + t;
    if braces {
      assert t == "{" + Pass(s) + "}";
    }
  }

  /** The parser accepts exactly the wrapped canonical and bare forms, in any letter case,
      so nothing longer than 58 bytes. */
  lemma ParseAcceptsIff(s: string, b: Uuid)
    ensures Parse(s) == Some(b) <==> exists w, c :: Wrapped(w, c, s) && Spelled(c, b)
    ensures Parse(s) == Some(b) ==> |s| <= 58
  {
    hide Spelled;
    if Parse(s) == Some(b) {
      var u1, b1 := PassUnwraps(s);
      var u2, b2 := PassUnwraps(Pass(s));
      CoreIff(Strip(s), b);
      assert Wrapped(Wrapping(u1, b1, u2, b2), Strip(s), s);
      assert |LowerAll(u1)| == |u1| && |LowerAll(u2)| == |u2|;
    }
    if exists w, c :: Wrapped(w, c, s) && Spelled(c, b) {
      var w, c :| Wrapped(w, c, s) && Spelled(c, b);
      CoreIff(c, b);
      WrappedParses(w, c, s);
    }
  }

  // ---- compat validators ---------------------------------------------------

  predicate IsHex(c: char) {
    '0' <= c <= '9' || 'A' <= c <= 'F' || 'a' <= c <= 'f'
  }

  /** The anchored pattern 8-4-4-4-12. */
  predicate IsCanonicalShape(s: string) {
    && |s| == 36
    && forall k :: 0 <= k < 36 ==> if k == 8 || k == 13 || k == 18 || k == 23 then s[k] == '-' else IsHex(s[k])
  }

  /** stripWrappers as a loop, with its length cap. */
  method StripWrappers(text: string) returns (res: Option<string>)
    ensures res == if |text| > 47 then None else Some(Strip(text))
  {
    if |text| > 47 {
      return None;
    }
    var s := text;
    for pass := 0 to 2
      invariant s == if pass == 0 then text else if pass == 1 then Pass(text) else Strip(text)
    {
      if |s| >= 9 && LowerAll(s[..9]) == URN {
        s := s[9..];
      }
      if |s| >= 2 && s[0] == '{' && s[|s| - 1] == '}' {
        s := s[1..|s| - 1];
      }
    }
    return Some(s);
  }

  /** What stripping yields, or nothing past the cap; `shortcut` skips it for 36 bytes. */
  function Inner(s: string, shortcut: bool): Option<string> {
    if shortcut && |s| == 36 then Some(s) else if |s| > 47 then None else Some(Strip(s))
  }

  predicate Nonstandard(s: string, shortcut: bool) {
    Inner(s, shortcut).Some? && IsCanonicalShape(Inner(s, shortcut).value)
  }

  const NIL := "00000000-0000-0000-0000-000000000000"

  predicate Generic(s: string, shortcut: bool) {
    var inner := Inner(s, shortcut);
    if inner.None? || !IsCanonicalShape(inner.value) then false
    else if inner.value == NIL then true
    else if inner.value[14] < '1' || inner.value[14] > '8' then false
    else inner.value[19] in "89abAB"
  }

  lemma StripShortens(s: string)
    ensures |Strip(s)| <= |s| && (|Strip(s)| == |s| ==> Strip(s) == s)
  {
  }

  /** The 36-byte shortcuts never change a verdict. */
  lemma ShortcutsAreSound(s: string)
    ensures Nonstandard(s, true) == Nonstandard(s, false)
    ensures Generic(s, true) == Generic(s, false)
  {
    StripShortens(s);
    if IsCanonicalShape(s) {
      ShapeIsCore(s);
      CoreNeedsNoStrip(s);
    }
  }

  /** The pattern matches exactly what the parser's 36-byte branch accepts. */
  lemma ShapeIsCore(s: string)
    ensures IsCanonicalShape(s) <==> |s| == 36 && ParseCore(s).Some?
  {
    if IsCanonicalShape(s) {
      forall i | 0 <= i < 16
        ensures ByteAt(s, Pos36(i)).Some?
      {
        assert IsHex(s[Pos36(i)]) && IsHex(s[Pos36(i) + 1]);
      }
    }
    if |s| == 36 && ParseCore(s).Some? {
      forall k | 0 <= k < 36 && k != 8 && k != 13 && k != 18 && k != 23
        ensures IsHex(s[k])
      {
        assert ByteAt(s, Pos36(ByteOf(k))).Some?;
      }
    }
  }

  /** The lax validator accepts exactly what the parser accepts in canonical form
      within 47 bytes. */
  lemma NonstandardIff(s: string)
    ensures Nonstandard(s, true) <==> |s| <= 47 && |Strip(s)| == 36 && Parse(s).Some?
  {
    ShortcutsAreSound(s);
    ShapeIsCore(Strip(s));
  }

  /** The strict one also wants the nil UUID, or a version 1..8 and the RFC variant. */
  lemma GenericIff(s: string)
    ensures Generic(s, true) <==>
      Nonstandard(s, true) && Parse(s).Some? &&
      var b := Parse(s).value;
      b == seq(16, _ => 0) || (1 <= b[6] / 16 <= 8 && b[8] / 0x40 == 2)
  {
    ShortcutsAreSound(s);
    NonstandardIff(s);
    if Nonstandard(s, true) {
      var c, b := Strip(s), Parse(s).value;
      assert ByteAt(c, Pos36(6)) == Some(b[6]) && ByteAt(c, Pos36(8)) == Some(b[8]);
      NilIff(c, b);
      VersionDigit(c[14]);
      VariantDigit(c[19]);
      assert b[6] / 16 == Nibble(c[14]) && b[8] / 16 == Nibble(c[19]);
      assert b[8] / 0x40 == b[8] / 16 / 4;
    }
  }

  lemma VersionDigit(c: char)
    requires Nibble(c) >= 0
    ensures !(c < '1' || c > '8') <==> 1 <= Nibble(c) <= 8
  {
  }

  lemma VariantDigit(c: char)
    requires Nibble(c) >= 0
    ensures c in "89abAB" <==> Nibble(c) / 4 == 2
  {
  }

  lemma NilChars()
    ensures |NIL| == 36
    ensures forall k :: 0 <= k < 36 ==> NIL[k] == if k == 8 || k == 13 || k == 18 || k == 23 then '-' else '0'
  {
  }

  lemma ZeroNibbles()
    ensures forall c: char :: Nibble(c) == 0 <==> c == '0'
  {
  }

  lemma NilIff(c: string, b: Uuid)
    requires |c| == 36 && ParseCore(c) == Some(b)
    ensures c == NIL <==> b == seq(16, _ => 0)
  {
    hide Nibble;
    NilChars();
    ZeroNibbles();
    var zero: Uuid := seq<byte>(16, _ => 0);
    if c == NIL {
      forall i | 0 <= i < 16
        ensures b[i] == 0
      {
        assert ByteAt(c, Pos36(i)) == Some(b[i]);
        assert c[Pos36(i)] == '0' && c[Pos36(i) + 1] == '0';
      }
      assert b == zero;
    }
    if b == zero {
      forall k | 0 <= k < 36
        ensures c[k] == NIL[k]
      {
        if k != 8 && k != 13 && k != 18 && k != 23 {
          var i := ByteOf(k);
          assert ByteAt(c, Pos36(i)) == Some(b[i]);
          assert Nibble(c[k]) == 0;
        } else {
          assert c[k] == '-';
        }
      }
    }
  }

  lemma UrnIsLower()
    ensures LowerAll(URN) == URN && |URN| == 9
  {
  }

  /** The validators' cap is meant as the longest accepted form, but the parser takes
      two prefixes: 54 bytes it accepts and both validators reject. */
  lemma CapIsTooShort(b: Uuid)
    ensures var s := URN + URN + Format36(b);
      Parse(s) == Some(b) && !Nonstandard(s, true) && !Generic(s, true)
  {
    hide Parse, ParseCore, Strip, Format36, IsCanonicalShape;
    ParseOfFormat(b);
    var f := Format36(b);
    UrnIsLower();
    assert URN + URN + f == Wrap(URN, false, Wrap(URN, false, f));
    WrappedParses(Wrapping(URN, false, URN, false), f, URN + URN + f);
  }
}
