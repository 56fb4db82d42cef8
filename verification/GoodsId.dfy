/**
 Goods ids: the parser of the take request (legacy_warehouse_service.cpp:33-52) and the
 printer of the goods view (legacy_http_server.cpp:116-120).
 */
module GoodsId {
  import opened Wrappers
  import opened Decimal

  const INT64_MAX: int := 0x7FFF_FFFF_FFFF_FFFF

  newtype uint64 = x: int | 0 <= x < 0x1_0000_0000_0000_0000

  function WithoutMark(supplied: string): string {
    if supplied != "" && (supplied[0] == 'G' || supplied[0] == 'g') then supplied[1..] else supplied
  }

  /** The id a request names: a numeral, with or without the mark, in the range of positive int64. */
  function Named(supplied: string): Option<int> {
    var text := WithoutMark(supplied);
    if text != "" && AllDigits(text) && 1 <= Value(text) <= INT64_MAX then Some(Value(text)) else None
  }

  method ParseGoodsId(supplied: string) returns (id: Option<int>)
    ensures id == Named(supplied)
  {
    var text := supplied;
    if |text| > 0 && (text[0] == 'G' || text[0] == 'g') {
      text := text[1..];
    }
    if |text| == 0 || !AllDigits(text) {
      return None;
    }
    var value: uint64 := 0;
    var i := 0;
    while i < |text|
      invariant 0 <= i <= |text|
      invariant value as int == Value(text[..i]) && value as int <= INT64_MAX
    {
      var digit := DigitValue(text[i]) as uint64;
      assert Value(text[..i + 1]) == Value(text[..i]) * 10 + DigitValue(text[i]) by {
        assert text[..i + 1][..i] == text[..i];
      }
      if value > (INT64_MAX as uint64 - digit) / 10 {
        ValueGrows(text, i + 1);
        return None;
      }
      value := value * 10 + digit;
      i := i + 1;
    }
    assert text[..|text|] == text;
    if value == 0 {
      return None;
    }
    return Some(value as int);
  }

  function Padded(s: string, width: nat): string {
    if |s| < width then Zeros(width - |s|) + s else s
  }

  /** `G` and the id, padded to six characters; the sign of a negative id is part of the padded text. */
  function Formatted(id: int): string {
    "G" + Padded(if id < 0 then "-" + Numeral(-id) else Numeral(id), 6)
  }

  /** Reading back the printed form. */
  lemma RoundTrip(id: int)
    requires 1 <= id <= INT64_MAX
    ensures Named(Formatted(id)) == Some(id)
  {
    hide Numeral, Value;
    var n := Numeral(id);
    if |n| < 6 {
      LeadingZeros(6 - |n|, n);
    }
    MarkDropped("G", Padded(n, 6));
  }

  /** The printed form is the mark and at least six digits, with zeros in front only to make up six. */
  lemma PrintedDigits(id: nat)
    ensures
      var printed := Formatted(id);
      printed[..1] == "G" && AllDigits(printed[1..]) && Value(printed[1..]) == id &&
      |printed| >= 7 && (|printed| == 7 <==> id < 1_000_000) && (|printed| > 7 ==> printed[1] != '0')
  {
    hide Numeral, Value;
    var n := Numeral(id);
    if |n| < 6 {
      LeadingZeros(6 - |n|, n);
    }
    assert Formatted(id)[1..] == Padded(n, 6);
    NumeralLength(id, 6);
    SixDigits();
  }

  lemma SixDigits()
    ensures PowerOf10(6) == 1_000_000
  {
    assert PowerOf10(3) == 1000;
  }

  /** Different ids never print alike. */
  lemma PrintedFormsDiffer(a: int, b: int)
    requires 1 <= a <= INT64_MAX && 1 <= b <= INT64_MAX && Formatted(a) == Formatted(b)
    ensures a == b
  {
    RoundTrip(a);
    RoundTrip(b);
  }

  /** Exactly the numerals in range are accepted, with any leading zeros and with or without a mark. */
  lemma ExactBound(zeros: nat, numeral: string, mark: string)
    requires numeral != "" && AllDigits(numeral) && (mark == "" || mark == "G" || mark == "g")
    ensures Named(mark + (Zeros(zeros) + numeral)).Some? <==> 1 <= Value(numeral) <= INT64_MAX
    ensures Named(mark + (Zeros(zeros) + numeral)).Some? ==>
      Named(mark + (Zeros(zeros) + numeral)) == Some(Value(numeral))
  {
    var text := Zeros(zeros) + numeral;
    LeadingZeros(zeros, numeral);
    MarkDropped(mark, text);
  }

  lemma MarkDropped(mark: string, text: string)
    requires text != "" && IsDigit(text[0]) && (mark == "" || mark == "G" || mark == "g")
    ensures WithoutMark(mark + text) == text
  {
    if mark == "" {
      assert mark + text == text;
    } else {
      assert (mark + text)[1..] == text;
    }
  }
}
