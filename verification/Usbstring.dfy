// Whole strings between UTF-8 and the little-endian 16-bit units that go over the wire.
module Usbstring {
  import opened Utf

  // --- Units to UTF-8 ---

  function Encode(us: seq<bv16>): seq<bv8> {
    if us == [] then [] else Utf8Encode(us[0] as bv32) + Encode(us[1..])
  }

  predicate NonZero(us: seq<bv16>) {
    forall i :: 0 <= i < |us| ==> us[i] != 0
  }

  function UnitAt(us: seq<bv16>, i: nat): bv16 {
    if i < |us| then us[i] else 0
  }

  /** The units before the first zero. */
  function Text(us: seq<bv16>): (t: seq<bv16>)
    ensures |t| <= |us| && t == us[..|t|] && NonZero(t) && UnitAt(us, |t|) == 0
  {
    if us == [] || us[0] == 0 then [] else [us[0]] + Text(us[1..])
  }

  lemma {:induction false} EncodeAppend(us: seq<bv16>, u: bv16)
    ensures Encode(us + [u]) == Encode(us) + Utf8Encode(u as bv32)
  {
    hide Utf8Encode;
    if us == [] {
      assert us + [u] == [u];
    } else {
      assert (us + [u])[1..] == us[1..] + [u];
      EncodeAppend(us[1..], u);
    }
  }

  lemma {:induction false} EncodeGrows(us: seq<bv16>, k: nat)
    requires k <= |us|
    ensures |Encode(us[..k])| <= |Encode(us)|
  {
    hide Utf8Encode;
    if k == |us| {
      assert us[..k] == us;
    } else {
      assert us[..|us| - 1] + [us[|us| - 1]] == us;
      EncodeAppend(us[..|us| - 1], us[|us| - 1]);
      EncodeGrows(us[..|us| - 1], k);
      assert us[..|us| - 1][..k] == us[..k];
    }
  }

  /** How many of the units fit into maxstrsize bytes with the terminating 0. */
  function FitCount(us: seq<bv16>, maxstrsize: int): (k: nat)
    ensures k <= |us|
    ensures maxstrsize > 0 ==> |Encode(us[..k])| < maxstrsize
    ensures k < |us| ==> |Encode(us[..k + 1])| >= maxstrsize
  {
    if us == [] then 0
    else
      var init := us[..|us| - 1];
      var k := FitCount(init, maxstrsize);
      assert forall j :: 0 <= j <= |init| ==> init[..j] == us[..j];
      assert us[..|us|] == us;
      if k == |init| && |Encode(us)| < maxstrsize then |us| else k
  }

  lemma FitIs(us: seq<bv16>, k: nat, maxstrsize: int)
    requires k <= |us| && |Encode(us[..k])| < maxstrsize
    requires k < |us| ==> |Encode(us[..k + 1])| >= maxstrsize
    ensures FitCount(us, maxstrsize) == k
  {
    var f := FitCount(us, maxstrsize);
    if f < k {
      assert us[..k][..f + 1] == us[..f + 1];
      EncodeGrows(us[..k], f + 1);
    } else if k < f {
      assert us[..f][..k + 1] == us[..k + 1];
      EncodeGrows(us[..f], k + 1);
    }
  }

  /** What reading the units into a buffer of maxstrsize bytes leaves in it: the longest prefix
      of whole characters that leaves room for the terminating 0. */
  function Fitted(us: seq<bv16>, maxstrsize: int): seq<bv8> {
    Encode(Text(us)[..FitCount(Text(us), maxstrsize)])
  }

  lemma EncodeNothing()
    ensures Encode([]) == []
  {
  }

  method PutBytes(str: array<bv8>, i: nat, chunk: seq<bv8>)
    requires i + |chunk| <= str.Length
    modifies str
    ensures str[..i + |chunk|] == old(str[..i]) + chunk
    ensures forall j :: i + |chunk| <= j < str.Length ==> str[j] == old(str[j])
  {
    forall j | 0 <= j < |chunk| {
      str[i + j] := chunk[j];
    }
  }

  /** Returns 1 when the text was cut. The buffer holds the fitted bytes and a 0. */
  method Unicode2CharString(str: array<bv8>, us: seq<bv16>, maxstrsize: nat) returns (ret: int)
    requires 0 < maxstrsize <= str.Length
    modifies str
    ensures var f := Fitted(us, maxstrsize); |f| < maxstrsize && str[..|f|] == f && str[|f|] == 0
    ensures ret == if |Encode(Text(us))| < maxstrsize then 0 else 1
    ensures forall k :: maxstrsize <= k < str.Length ==> str[k] == old(str[k])
  {
    hide FitCount, Utf8Encode, Encode;
    EncodeNothing();
    var i, k := 0, 0;
    ret := 0;
    while UnitAt(us, k) != 0
      invariant 0 <= k <= |Text(us)| && i == |Encode(Text(us)[..k])| < maxstrsize
      invariant str[..i] == Encode(Text(us)[..k])
      invariant forall j :: maxstrsize <= j < str.Length ==> str[j] == old(str[j])
      decreases |Text(us)| - k
    {
      assert k < |Text(us)|;
      var chunk := Utf8Encode(us[k] as bv32);
      assert Text(us)[..k + 1] == Text(us)[..k] + [us[k]];
      EncodeAppend(Text(us)[..k], us[k]);
      if i + |chunk| < maxstrsize {
        PutBytes(str, i, chunk);
        i := i + |chunk|;
        k := k + 1;
      } else {
        str[maxstrsize - 1] := 0;
        ret := 1;
        EncodeGrows(Text(us), k + 1);
        break;
      }
    }
    FitIs(Text(us), k, maxstrsize);
    str[i] := 0;
    assert str[..i] == Encode(Text(us)[..k]);
    assert ret == 0 ==> Text(us)[..k] == Text(us);
  }

  // --- UTF-8 to units ---

  /** The units decoded from p on, up to the end or the first malformed character. */
  function Decode(s: seq<bv8>, p: nat): (us: seq<bv16>)
    ensures NonZero(us)
    decreases |s| - p
  {
    var (u, n) := Utf2Unicode(s, p);
    if u == 0 || n == 0 || p >= |s| then [] else [u] + Decode(s, p + n)
  }

  /** What goes over the wire: at most 254 units and a terminating 0. */
  function Emitted(s: seq<bv8>): (us: seq<bv16>)
    ensures 1 <= |us| <= 255 && us[|us| - 1] == 0 && NonZero(us[..|us| - 1])
  {
    var us := Decode(s, 0);
    (if |us| <= 254 then us else us[..254]) + [0]
  }

  function UnitBytes(us: seq<bv16>): (b: seq<bv8>)
    ensures |b| == 2 * |us|
  {
    if us == [] then []
    else UnitBytes(us[..|us| - 1]) + Le16(us[|us| - 1])
  }

  lemma UnitBytesAppend(us: seq<bv16>, u: bv16)
    ensures UnitBytes(us + [u]) == UnitBytes(us) + Le16(u)
  {
    assert (us + [u])[..|us|] == us;
  }

  lemma {:induction false} DecodeEncoded(before: seq<bv8>, us: seq<bv16>)
    requires NonZero(us)
    ensures Decode(before + Encode(us), |before|) == us
    decreases us
  {
    hide Utf8Encode, Utf2Unicode;
    var s, p := before + Encode(us), |before|;
    if us == [] {
      assert At(s, p) == 0;
    } else {
      var c := Utf8Encode(us[0] as bv32);
      assert s == before + c + Encode(us[1..]);
      DecodeUndoesEncode(us[0], before, Encode(us[1..]));
      DecodeEncoded(before + c, us[1..]);
      assert |before + c| == p + |c|;
    }
  }

  /** Any sequence of non-zero units that fits survives the way to UTF-8 and back. */
  lemma UnitsRoundTrip(us: seq<bv16>, maxstrsize: int)
    requires NonZero(us) && |us| <= 254 && |Encode(us)| < maxstrsize
    ensures Emitted(Fitted(us, maxstrsize)) == us + [0]
  {
    TextOfNonZero(us);
    assert us[..|us|] == us;
    FitIs(us, |us|, maxstrsize);
    DecodeEncoded([], us);
    assert [] + Encode(us) == Encode(us);
  }

  lemma {:induction false} TextOfNonZero(us: seq<bv16>)
    requires NonZero(us)
    ensures Text(us) == us && Text(us + [0]) == us
  {
    if us != [] {
      assert (us + [0])[1..] == us[1..] + [0];
      TextOfNonZero(us[1..]);
    }
  }
}
