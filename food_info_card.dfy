/**
 * The food card: the remaining-days window (a valid/expired label over a capped
 * day count) and the click-driven state of the tips icon and the overflow menu.
 */
module FoodInfoCard {
  import opened Entities
  import opened Decimal
  import opened KotlinInt

  /** The two labels of the window (the `valid_in` and `expired` string resources). */
  datatype Status = ValidIn | Expired

  /** What the window shows: a label and the number text under it. */
  datatype Window = Window(status: Status, number: string)

  /** Largest day count shown as a number; beyond it the window shows `Cap`. */
  const MaxShown: nat := 99
  const Cap: string := "99+"

  function Abs(d: int): nat {
    if d < 0 then -d else d
  }

  /** A record is valid exactly while days remain; day 0 already counts as expired. */
  function Classify(remainingDays: int): (s: Status)
    ensures s == ValidIn <==> remainingDays > 0
  {
    if remainingDays > 0 then ValidIn else Expired
  }

  /**
   * The number text, branch by branch as the window computes it: the value itself
   * when valid, its negation when expired, and `Cap` past 99 either way. Whatever
   * the branch, that is the day count's magnitude capped at 99, without a sign.
   */
  function DisplayText(remainingDays: int): (t: string)
    ensures t == if Abs(remainingDays) > MaxShown then Cap else NatToString(Abs(remainingDays))
    ensures '-' !in t
    ensures |t| <= 3
  {
    NatToStringWidth(Abs(remainingDays));
    if remainingDays > 0 then
      (if Abs(remainingDays) > MaxShown then Cap else IntToString(remainingDays))
    else
      (if Abs(remainingDays) > MaxShown then Cap else IntToString(-remainingDays))
  }

  /** The whole window: the label carries the sign, the number the capped magnitude. */
  function RemainingDaysWindow(remainingDays: int): (w: Window)
    ensures w.status == ValidIn <==> remainingDays > 0
    ensures w.number == DisplayText(remainingDays)
  {
    Window(Classify(remainingDays), DisplayText(remainingDays))
  }

  /** Past 99 days either way the text is the literal cap, whatever the label. */
  lemma CappedBeyondNinetyNine(d: int)
    requires d > 99 || d < -99
    ensures d > 99 ==> RemainingDaysWindow(d) == Window(ValidIn, Cap)
    ensures d < -99 ==> RemainingDaysWindow(d) == Window(Expired, Cap)
  {
  }

  /** A valid record with at most 99 days left shows that count. */
  lemma ValidShowsDays(d: int)
    requires 1 <= d <= 99
    ensures RemainingDaysWindow(d) == Window(ValidIn, NatToString(d))
  {
  }

  /** An expired record within 99 days shows the days since expiry; day 0 shows "0". */
  lemma ExpiredShowsDaysSince(d: int)
    requires -99 <= d <= 0
    ensures RemainingDaysWindow(d) == Window(Expired, NatToString(-d))
    ensures d == 0 ==> RemainingDaysWindow(d).number == "0"
  {
  }

  /** Every text is the cap or the numeral of a count between 0 and 99. */
  lemma DisplayTextRange(d: int)
    ensures DisplayText(d) == Cap || exists k :: 0 <= k <= MaxShown && DisplayText(d) == NatToString(k)
  {
    if Abs(d) <= MaxShown {
      assert DisplayText(d) == NatToString(Abs(d));
    }
  }

  /** Opposite day counts show the same text; only the label tells them apart. */
  lemma SignSymmetry(d: int)
    ensures DisplayText(d) == DisplayText(-d)
    ensures d != 0 ==> Classify(d) != Classify(-d)
  {
  }

  /** The cap is never the numeral of a count. */
  lemma CapIsNoNumeral(k: nat)
    ensures NatToString(k) != Cap
  {
    var s := NatToString(k);
    if |s| == |Cap| {
      assert IsDigit(s[2]) && !IsDigit(Cap[2]);
    }
  }

  /**
   * Two day counts share a text exactly when they have the same magnitude or are
   * both past the cap: the text loses the sign and everything beyond 99, nothing else.
   */
  lemma DisplayTextDistinguishes(d: int, e: int)
    ensures DisplayText(d) == DisplayText(e) <==>
              Abs(d) == Abs(e) || (Abs(d) > MaxShown && Abs(e) > MaxShown)
  {
    NatToStringInjective(Abs(d), Abs(e));
    CapIsNoNumeral(Abs(d));
    CapIsNoNumeral(Abs(e));
  }

  /** The worked cases: 150, -150, 50, 5, -1 and 0 days. */
  lemma WindowExamples()
    ensures RemainingDaysWindow(150) == Window(ValidIn, "99+")
    ensures RemainingDaysWindow(-150) == Window(Expired, "99+")
    ensures RemainingDaysWindow(50) == Window(ValidIn, "50")
    ensures RemainingDaysWindow(5) == Window(ValidIn, "5")
    ensures RemainingDaysWindow(-1) == Window(Expired, "1")
    ensures RemainingDaysWindow(0) == Window(Expired, "0")
  {
    assert NatToString(50) == NatToString(5) + [DigitChar(0)];
  }

  /**
   * The number text exactly as the window computes it when the day count is a
   * Kotlin 32-bit `Int`: `absoluteValue` and unary minus both wrap around, so at
   * `Int.MIN_VALUE` the expired branch prints a negative number instead of the cap.
   */
  function DisplayTextAsWritten(remainingDays: Int32): (t: string)
    ensures remainingDays != IntMin ==> t == DisplayText(remainingDays)
    ensures remainingDays == IntMin ==> t == "-" + NatToString(0x8000_0000)
  {
    if remainingDays > 0 then
      (if AbsoluteValue(remainingDays) > MaxShown as int then Cap else IntToString(remainingDays))
    else
      (if AbsoluteValue(remainingDays) > MaxShown as int then Cap else IntToString(Negate(remainingDays)))
  }

  /** The code and the capped-magnitude rule disagree at `Int.MIN_VALUE` and nowhere else. */
  lemma AsWrittenAgrees(d: Int32)
    ensures DisplayTextAsWritten(d) == DisplayText(d) <==> d != IntMin
  {
    if d == IntMin {
      assert DisplayTextAsWritten(d)[0] == '-';
    }
  }

  /**
   * The remembered state of one card. `foodInfo` is the record of the latest
   * composition; `tipsButtonShown` is computed once, from the record the card was
   * first composed with. The tips card is visible while `tipsShown` holds.
   */
  class CardState {
    var foodInfo: FoodInfo
    const tipsButtonShown: bool
    var tipsShown: bool
    var dropDownMenuExpanded: bool

    /** The tips card can only be open when the info icon that opens it exists. */
    ghost predicate Valid()
      reads this
    {
      tipsShown ==> tipsButtonShown
    }

    constructor (foodInfo: FoodInfo)
      ensures Valid()
      ensures this.foodInfo == foodInfo
      ensures tipsButtonShown <==> foodInfo.tips != []
      ensures !tipsShown && !dropDownMenuExpanded
    {
      this.foodInfo := foodInfo;
      tipsButtonShown := foodInfo.tips != [];
      tipsShown := false;
      dropDownMenuExpanded := false;
    }

    /**
     * The card is composed again with `newInfo`. The remembered values are not keyed
     * on the record, so they keep what the first composition computed.
     */
    method Recompose(newInfo: FoodInfo)
      requires Valid()
      modifies this`foodInfo
      ensures Valid()
      ensures foodInfo == newInfo
    {
      foodInfo := newInfo;
    }

    /**
     * A click on the info icon, which is only there when the first record had tips.
     * Each click negates `tipsShown`, so two clicks leave it as it was.
     */
    method ClickInfoIcon()
      requires Valid() && tipsButtonShown
      modifies this`tipsShown
      ensures Valid()
      ensures tipsShown == !old(tipsShown)
    {
      tipsShown := !tipsShown;
    }

    /** A click on the open tips card closes it. */
    method ClickTipsCard()
      requires Valid()
      modifies this`tipsShown
      ensures Valid()
      ensures !tipsShown
    {
      tipsShown := false;
    }

    /** The "more" button opens the menu. */
    method ClickMoreButton()
      requires Valid()
      modifies this`dropDownMenuExpanded
      ensures Valid()
      ensures dropDownMenuExpanded
    {
      dropDownMenuExpanded := true;
    }

    /** Dismissing the menu closes it. */
    method DismissMenu()
      requires Valid()
      modifies this`dropDownMenuExpanded
      ensures Valid()
      ensures !dropDownMenuExpanded
    {
      dropDownMenuExpanded := false;
    }

    /**
     * The delete item closes the menu and hands the latest composition's record to the
     * background removal (photo file, then the record), which is not modelled.
     */
    method ChooseDelete() returns (toRemove: FoodInfo)
      requires Valid()
      modifies this`dropDownMenuExpanded
      ensures Valid()
      ensures !dropDownMenuExpanded
      ensures toRemove == foodInfo
    {
      dropDownMenuExpanded := false;
      toRemove := foodInfo;
    }
  }
}
