// Reference solutions of the first example project: clock-time formatting
// and two- and three-card blackjack hand values.
module Project0 {
  import opened Wrappers
  import opened PyStrings

  /** min_sec_pad: a value below ten gets a leading zero. */
  function MinSecPad(value: int): (r: string)
    ensures 0 <= value < 100 ==> |r| == 2 && AllDigits(r) && DigitsValue(r) == value
  {
    if value < 10 then
      var d := IntToString(value);
      assert 0 <= value ==> (["0"[0]] + d)[..1] == "0" && (["0"[0]] + d)[1..] == d;
      "0" + d
    else IntToString(value)
  }

  predicate ValidTime(hours: int, minutes: int, seconds: int) {
    0 <= hours <= 23 && 0 <= minutes <= 59 && 0 <= seconds <= 59
  }

  /** The hour on a twelve-hour clock face. */
  function ClockHour(hours: int): int {
    if hours == 0 then 12 else if hours > 12 then hours - 12 else hours
  }

  /** string_time */
  function StringTime(hours: int, minutes: int, seconds: int): (r: string)
    ensures !ValidTime(hours, minutes, seconds) ==> r == "invalid input"
    ensures ValidTime(hours, minutes, seconds) ==>
      (r == "Midnight" <==> hours == 0 && minutes == 0 && seconds == 0)
    ensures ValidTime(hours, minutes, seconds) ==>
      (r == "Noon" <==> hours == 12 && minutes == 0 && seconds == 0)
  {
    if hours > 23 || minutes > 59 || seconds > 59 || hours < 0 || minutes < 0 || seconds < 0 then
      "invalid input"
    else
      var suffix := if hours >= 12 then "PM" else "AM";
      var h := ClockHour(hours);
      if h == 12 && minutes == 0 && seconds == 0 then
        if suffix == "AM" then "Midnight" else "Noon"
      else
        var r := IntToString(h) + ":" + MinSecPad(minutes) + ":" + MinSecPad(seconds) + " " + suffix;
        assert r[0] == IntToString(h)[0] && IsDigit(r[0]);
        r
  }

  /**
   * Every valid time other than midnight and noon is shown as h:mm:ss with
   * h in 1..12 congruent to the hour modulo 12, two-digit minutes and
   * seconds, and the suffix AM exactly in the morning.
   */
  lemma {:induction false} StringTimeFormat(hours: int, minutes: int, seconds: int)
    requires ValidTime(hours, minutes, seconds)
    requires !(hours % 12 == 0 && minutes == 0 && seconds == 0)
    ensures var r := StringTime(hours, minutes, seconds);
      var h := ClockHour(hours);
      1 <= h <= 12 && h % 12 == hours % 12
      && |r| == |IntToString(h)| + 9
      && r == IntToString(h) + ":" + MinSecPad(minutes) + ":" + MinSecPad(seconds) + " " + r[|r| - 2..]
      && DigitsValue(MinSecPad(minutes)) == minutes && DigitsValue(MinSecPad(seconds)) == seconds
      && (r[|r| - 2..] == "AM" <==> hours < 12)
      && (r[|r| - 2..] == "PM" <==> hours >= 12)
  {
    var h := ClockHour(hours);
    var suffix := if hours >= 12 then "PM" else "AM";
    var prefix := IntToString(h) + ":" + MinSecPad(minutes) + ":" + MinSecPad(seconds) + " ";
    StringTimeShape(hours, minutes, seconds);
    LastTwo(prefix, suffix);
  }

  lemma StringTimeShape(hours: int, minutes: int, seconds: int)
    requires ValidTime(hours, minutes, seconds)
    requires !(hours % 12 == 0 && minutes == 0 && seconds == 0)
    ensures StringTime(hours, minutes, seconds)
      == IntToString(ClockHour(hours)) + ":" + MinSecPad(minutes) + ":" + MinSecPad(seconds) + " "
         + (if hours >= 12 then "PM" else "AM")
  {
  }

  lemma LastTwo(prefix: string, suffix: string)
    requires |suffix| == 2
    ensures (prefix + suffix)[|prefix + suffix| - 2..] == suffix
  {
  }

  /** The examples in the assignment's comments. */
  lemma StringTimeExamples()
    ensures StringTime(0, 0, 1) == "12:00:01 AM"
    ensures StringTime(23, 0, 0) == "11:00:00 PM"
    ensures StringTime(0, 0, 0) == "Midnight" && StringTime(12, 0, 0) == "Noon"
  {
    assert NatToString(12) == "12";
    assert NatToString(11) == "11";
    assert MinSecPad(0) == "00" && MinSecPad(1) == "01";
  }

  lemma ContainsChar(s: string, c: char)
    ensures Contains(s, [c]) <==> c in s
  {
    if c in s {
      var i :| 0 <= i < |s| && s[i] == c;
      assert OccursAt(s, [c], i);
    }
    if Contains(s, [c]) {
      var i :| 0 <= i <= |s| - 1 && OccursAt(s, [c], i);
      assert s[i] == s[i..i + 1][0];
    }
  }

  /** card_to_val; `card in "23456789"` is a substring test, so the empty card reaches int(""). */
  function CardToVal(card: string): (r: Result<int>)
    ensures r.Failure? <==> card == ""
  {
    if Contains("23456789", card) then
      DigitSubstringParses(card);
      match ParseInt(card)
      case Some(v) => Success(v)
      case None => Failure("ValueError")
    else
      assert OccursAt("23456789", "", 0);
      if Contains("TJQK", card) then Success(10) else Success(11)
  }

  /** A non-empty piece of "23456789" is a decimal numeral. */
  lemma DigitSubstringParses(card: string)
    requires Contains("23456789", card)
    ensures card != "" ==> ParseInt(card).Some?
  {
    if card != [] {
      DigitSubstringIsDigits(card);
      ParseIntDigits(card);
    }
  }

  lemma DigitSubstringIsDigits(card: string)
    requires Contains("23456789", card) && card != []
    ensures AllDigits(card)
  {
    var i :| 0 <= i <= 8 - |card| && OccursAt("23456789", card, i);
    assert AllDigits("23456789");
    forall k | 0 <= k < |card| ensures IsDigit(card[k]) {
      assert card[k] == "23456789"[i + k];
    }
  }

  /** The cards of a deck, one character each. */
  predicate IsDeckCard(card: string) {
    |card| == 1 && card[0] in "23456789TJQKA"
  }

  /** A deck card is worth its face value, ten for a face card, eleven for an ace. */
  lemma {:induction false} CardToValDeck(card: string)
    requires IsDeckCard(card)
    ensures CardToVal(card).Success?
    ensures '2' <= card[0] <= '9' ==> CardToVal(card).value == card[0] as int - '0' as int
    ensures card[0] in "TJQK" ==> CardToVal(card).value == 10
    ensures card[0] == 'A' ==> CardToVal(card).value == 11
  {
    var c := card[0];
    assert card == [c];
    ContainsChar("23456789", c);
    ContainsChar("TJQK", c);
    if '2' <= c <= '9' {
      assert c in "23456789";
      ParseIntDigits(card);
      assert DigitsValue(card) == DigitsValue(card[..0]) * 10 + DigitValue(c);
    }
  }

  /** val_with_ace: the ace counts eleven unless that would pass 21. */
  function ValWithAce(otherCardVal: int): (r: int)
    ensures otherCardVal <= 10 ==> r == otherCardVal + 11 && r <= 21
    ensures otherCardVal >= 11 ==> r == otherCardVal + 1
  {
    if otherCardVal < 11 then 11 + otherCardVal else 1 + otherCardVal
  }

  /** blackjack2 */
  function Blackjack2(card1: string, card2: string): (r: Result<int>)
    ensures r.Failure? <==> card1 == "" || card2 == ""
  {
    if card1 == "A" then
      match CardToVal(card2)
      case Success(v) => Success(ValWithAce(v))
      case Failure(e) => Failure(e)
    else if card2 == "A" then
      match CardToVal(card1)
      case Success(v) => Success(ValWithAce(v))
      case Failure(e) => Failure(e)
    else
      match CardToVal(card1)
      case Failure(e) => Failure(e)
      case Success(v1) =>
        match CardToVal(card2)
        case Success(v2) => Success(v1 + v2)
        case Failure(e) => Failure(e)
  }

  lemma {:induction false} DeckCardBounds(card: string)
    requires IsDeckCard(card)
    ensures CardToVal(card).Success? && 2 <= CardToVal(card).value <= 11
    ensures CardToVal(card).value == 11 <==> card == "A"
  {
    CardToValDeck(card);
    var c := card[0];
    assert card == [c];
    assert c in "23456789TJQKA";
    if c == 'A' { assert card == "A"; }
  }

  /** Two deck cards never score more than 21. */
  lemma {:induction false} Blackjack2AtMost21(card1: string, card2: string)
    requires IsDeckCard(card1) && IsDeckCard(card2)
    ensures Blackjack2(card1, card2).Success? && Blackjack2(card1, card2).value <= 21
  {
    DeckCardBounds(card1);
    DeckCardBounds(card2);
  }

  /** blackjack3: each ace may be demoted from eleven to one while the hand is over 21. */
  function Blackjack3(card1: string, card2: string, card3: string): (r: Result<int>)
    ensures r.Failure? <==> card1 == "" || card2 == "" || card3 == ""
  {
    match (CardToVal(card1), CardToVal(card2), CardToVal(card3))
    case (Success(v1), Success(v2), Success(v3)) =>
      var total := v1 + v2 + v3;
      if (card1 == "A" || card2 == "A" || card3 == "A") && total > 21 then
        var once := total - 10;
        Success(if once > 21 then once - 10 else once)
      else Success(total)
    case (Failure(e), _, _) => Failure(e)
    case (_, Failure(e), _) => Failure(e)
    case (_, _, Failure(e)) => Failure(e)
  }

  /** Three deck cards including an ace never score more than 21. */
  lemma {:induction false} Blackjack3AtMost21(card1: string, card2: string, card3: string)
    requires IsDeckCard(card1) && IsDeckCard(card2) && IsDeckCard(card3)
    requires card1 == "A" || card2 == "A" || card3 == "A"
    ensures Blackjack3(card1, card2, card3).Success?
    ensures Blackjack3(card1, card2, card3).value <= 21
  {
    DeckCardBounds(card1);
    DeckCardBounds(card2);
    DeckCardBounds(card3);
  }

  /** The examples in the assignment's comments. */
  lemma BlackjackExamples()
    ensures Blackjack2("5", "K") == Success(15)
    ensures Blackjack3("5", "K", "5") == Success(20)
  {
    CardToValDeck("5");
    CardToValDeck("K");
    assert "K"[0] in "TJQK";
  }
}
