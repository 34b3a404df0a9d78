/** The DCE local identifier of version 2 given as text, in C and in PHP. */
module LocalId {
  import opened Positional
  import opened Bytes
  import opened Decimal

  import Layout

  const MAX_ID := "4294967295"

  /** fu_local_id_arg on a string: strtoull after the syntax checks. */
  function LocalIdInC(s: string): Option<nat> {
    if |s| == 0 || (|s| > 1 && s[0] == '0') || |s| > 10 then None
    else if !AllDigits(s) then None
    else if Value(s) > 0xFFFF_FFFF then None
    else Some(Value(s))
  }

  /** dceLocalIdBytes on a string: the range test compares text, and only then is the
      number converted. */
  function LocalIdInPhp(s: string): Option<nat> {
    if s == "" || (s[0] == '0' && |s| > 1) || !AllDigits(s) then None
    else if |s| > 10 || (|s| == 10 && StrGreater(s, MAX_ID)) then None
    else Some(Value(s))
  }

  lemma MaxIdValue()
    ensures AllDigits(MAX_ID) && Value(MAX_ID) == 0xFFFF_FFFF
  {
    assert "4"[..0] == "" && Value("4") == 4;
    Append3("4", '2', '9', '4');
    Append3("4294", '9', '6', '7');
    Append3("4294967", '2', '9', '5');
    assert "4" + ['2', '9', '4'] == "4294" && "4294" + ['9', '6', '7'] == "4294967";
    assert "4294967" + ['2', '9', '5'] == MAX_ID;
  }

  /** C and PHP accept exactly the canonical numerals below 2^32, with their value. */
  lemma LocalIdsAgree(s: string)
    ensures LocalIdInPhp(s).Some? <==> IsDecimal(s) && Value(s) < Layout.TWO32
    ensures LocalIdInC(s).Some? <==> IsDecimal(s) && Value(s) < Layout.TWO32
    ensures LocalIdInPhp(s).Some? ==> LocalIdInPhp(s).value == LocalIdInC(s).value == Value(s)
  {
    if IsDecimal(s) {
      MaxIdValue();
      DecimalOfValue(s);
      LengthBounds(Value(s));
      assert Pow(10, 9) == 1_000_000_000 && Pow(10, 10) == 10_000_000_000;
      if |s| > 10 {
        Pow10Grows(10, |s| - 1);
      } else if |s| == 10 {
        StrGreaterIsNumeric(s, MAX_ID);
      } else {
        Pow10Grows(|s|, 9);
      }
    }
  }
}
