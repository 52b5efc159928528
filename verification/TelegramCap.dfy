/**
  The message cap of cmd/telegram-svc/main.go, counted in UTF-16 code units (sections 2.1 and 2.2
  of RFC 2781). A text is its sequence of Unicode scalar values.
*/
module TelegramCap {

  type Scalar = r: int | 0 <= r < 0xD800 || 0xE000 <= r <= 0x10FFFF witness 0

  type Unit = u: int | 0 <= u <= 0xFFFF

  const MAX_MESSAGE_UNITS := 4096
  const ELLIPSIS: Scalar := 0x2026
  const REPLACEMENT: Scalar := 0xFFFD

  predicate IsHigh(u: Unit) { 0xD800 <= u <= 0xDBFF }

  predicate IsLow(u: Unit) { 0xDC00 <= u <= 0xDFFF }

  function EncodeScalar(r: Scalar): seq<Unit> {
    if r < 0x10000 then [r]
    else [0xD800 + (r - 0x10000) / 0x400, 0xDC00 + (r - 0x10000) % 0x400]
  }

  function Encode(text: seq<Scalar>): seq<Unit> {
    if text == [] then [] else EncodeScalar(text[0]) + Encode(text[1..])
  }

  /** The library's decoder: a surrogate without its partner becomes U+FFFD. */
  function Decode(units: seq<Unit>): seq<Scalar>
    decreases |units|
  {
    if units == [] then []
    else if IsHigh(units[0]) && |units| > 1 && IsLow(units[1]) then
      [(units[0] - 0xD800) * 0x400 + (units[1] - 0xDC00) + 0x10000] + Decode(units[2..])
    else if IsHigh(units[0]) || IsLow(units[0]) then [REPLACEMENT] + Decode(units[1..])
    else [units[0]] + Decode(units[1..])
  }

  function UnitCount(text: seq<Scalar>): nat { |Encode(text)| }

  function CapForTelegram(text: seq<Scalar>, parseMode: string): (seq<Scalar>, string) {
    var units := Encode(text);
    if |units| <= MAX_MESSAGE_UNITS then (text, parseMode)
    else
      var cut := MAX_MESSAGE_UNITS - |EncodeScalar(ELLIPSIS)|;
      var cut' := if cut > 0 && IsHigh(units[cut - 1]) then cut - 1 else cut;
      (Decode(units[..cut']) + [ELLIPSIS], "")
  }

  // ---------------------------------------------------------------- encoding

  lemma {:induction false} EncodeConcat(a: seq<Scalar>, b: seq<Scalar>)
    ensures Encode(a + b) == Encode(a) + Encode(b)
  {
    if a == [] {
      assert a + b == b;
    } else {
      assert (a + b)[1..] == a[1..] + b;
      EncodeConcat(a[1..], b);
    }
  }

  /** Decoding undoes encoding. */
  lemma {:induction false} DecodeEncode(text: seq<Scalar>)
    ensures Decode(Encode(text)) == text
  {
    if text == [] {
    } else {
      DecodeEncode(text[1..]);
      var r := text[0];
      if r < 0x10000 {
        assert Encode(text)[1..] == Encode(text[1..]);
      } else {
        assert Encode(text)[2..] == Encode(text[1..]);
        var offset: int := r;
        offset := offset - 0x10000;
        assert offset == offset / 0x400 * 0x400 + offset % 0x400;
      }
    }
  }

  /** The number of whole scalars in the first `cut` units. */
  function WholeScalars(text: seq<Scalar>, cut: nat): (k: nat)
    ensures k <= |text|
  {
    if text == [] || |EncodeScalar(text[0])| > cut then 0
    else 1 + WholeScalars(text[1..], cut - |EncodeScalar(text[0])|)
  }

  /** Cutting the units, one earlier if the last one kept would be a high surrogate, cuts the text
      between two scalars: after the longest prefix that fits. */
  lemma {:induction false} CutFallsBetweenScalars(text: seq<Scalar>, cut: nat)
    requires cut <= UnitCount(text)
    ensures var k := WholeScalars(text, cut);
            var cut' := if cut > 0 && IsHigh(Encode(text)[cut - 1]) then cut - 1 else cut;
            && Encode(text[..k]) == Encode(text)[..cut']
            && (forall m :: k < m <= |text| ==> UnitCount(text[..m]) > cut)
    decreases |text|
  {
    var k := WholeScalars(text, cut);
    if text == [] {
      assert text[..k] == [];
    } else {
      var first := EncodeScalar(text[0]);
      if |first| > cut {
        assert text[..k] == [];
        forall m | 0 < m <= |text| ensures UnitCount(text[..m]) > cut {
          EncodePrefix(text, m);
        }
      } else {
        var rest, cutRest := text[1..], cut - |first|;
        CutFallsBetweenScalars(rest, cutRest);
        EncodePrefix(text, k);
        assert Encode(text) == first + Encode(rest);
        assert cutRest > 0 ==> Encode(text)[cut - 1] == Encode(rest)[cutRest - 1];
        forall m | k < m <= |text| ensures UnitCount(text[..m]) > cut {
          EncodePrefix(text, m);
        }
      }
    }
  }

  lemma EncodePrefix(text: seq<Scalar>, m: nat)
    requires 0 < m <= |text|
    ensures Encode(text[..m]) == EncodeScalar(text[0]) + Encode(text[1..][..m - 1])
  {
    assert text[..m][1..] == text[1..][..m - 1] && text[..m][0] == text[0];
  }

  /** The capped text never exceeds the limit; a text that fits is untouched; a longer one becomes
      its longest prefix that leaves room for the ellipsis, with no scalar split, and loses its
      parse mode. */
  lemma CapKeepsLongestPrefix(text: seq<Scalar>, parseMode: string)
    ensures var (capped, mode) := CapForTelegram(text, parseMode);
            && UnitCount(capped) <= 4096
            && (UnitCount(text) <= 4096 ==> capped == text && mode == parseMode)
            && (UnitCount(text) > 4096 ==>
                  var k := |capped| - 1;
                  && 0 <= k < |text| && capped == text[..k] + [0x2026] && mode == ""
                  && (forall m :: k < m <= |text| ==> UnitCount(text[..m] + [0x2026]) > 4096))
  {
    var (capped, mode) := CapForTelegram(text, parseMode);
    var units := Encode(text);
    assert Encode([ELLIPSIS]) == [ELLIPSIS] by { assert [ELLIPSIS][1..] == []; }
    if |units| > MAX_MESSAGE_UNITS {
      var cut := MAX_MESSAGE_UNITS - 1;
      CutFallsBetweenScalars(text, cut);
      var k := WholeScalars(text, cut);
      DecodeEncode(text[..k]);
      assert capped == text[..k] + [ELLIPSIS];
      EncodeConcat(text[..k], [ELLIPSIS]);
      assert text[..|text|] == text;
      forall m | k < m <= |text| ensures UnitCount(text[..m] + [ELLIPSIS]) > MAX_MESSAGE_UNITS {
        EncodeConcat(text[..m], [ELLIPSIS]);
      }
    }
  }
}
