/** `extractRequirements`: budget, age, occasion and keyword tags read from
    the lower-cased message. The two regular expressions of the source,
    `/\$(\d+)/` and `/(\d+)[- ]?year[- ]?old/`, are written as scanners. */
module Requirements {
  import opened Options
  import opened Seqs
  import opened Text

  datatype Occasion = Birthday | Bbq | Party

  /** The requirement profile. An absent field is JavaScript's `null`. */
  datatype Requirements = Requirements(
    budget: Option<nat>,
    age: Option<nat>,
    occasion: Option<Occasion>,
    keywords: seq<string>)

  const Vocabulary: seq<string> := ["gift", "toy", "game", "electronic", "outdoor", "food", "grill"]

  /** End of the run of digits that starts at `i` (`i` itself when
      `s[i]` is not a digit). */
  function RunEnd(s: string, i: nat): (j: nat)
    requires i <= |s|
    ensures i <= j <= |s|
    ensures AllDigits(s[i..j])
    ensures forall k :: i <= k < j ==> IsDigit(s[k])
    ensures j == |s| || !IsDigit(s[j])
    decreases |s| - i
  {
    if i < |s| && IsDigit(s[i]) then RunEnd(s, i + 1) else i
  }

  /** The digits starting at `i`, taken greedily as `\d+` does. */
  function DigitsAt(s: string, i: nat): (ds: string)
    requires i <= |s|
    ensures AllDigits(ds)
  {
    s[i..RunEnd(s, i)]
  }

  /** `/\$(\d+)/` matches at `i`. */
  predicate BudgetAt(s: string, i: nat)
  {
    i + 1 < |s| && s[i] == '$' && IsDigit(s[i + 1])
  }

  /** `[- ]?` followed by `w`, starting at `j`. */
  predicate SepThen(s: string, j: nat, w: string)
  {
    StartsAt(s, j, w) || (j < |s| && (s[j] == '-' || s[j] == ' ') && StartsAt(s, j + 1, w))
  }

  /** `[- ]?year[- ]?old` matches at `j`. */
  predicate YearOldAt(s: string, j: nat)
  {
    (StartsAt(s, j, "year") && SepThen(s, j + 4, "old"))
    || (j < |s| && (s[j] == '-' || s[j] == ' ') && StartsAt(s, j + 1, "year") && SepThen(s, j + 5, "old"))
  }

  /** `/(\d+)[- ]?year[- ]?old/` matches at `i`, its `\d+` taking the whole
      digit run (see `AgeMatchIsMaximalRun` for why no shorter run can
      match). */
  predicate AgeAt(s: string, i: nat)
  {
    i < |s| && IsDigit(s[i]) && YearOldAt(s, RunEnd(s, i))
  }

  /** The regular expression read literally: some non-empty digit string
      from `i` is followed by the suffix. */
  predicate AgeRegexAt(s: string, i: nat)
  {
    exists j :: i < j <= |s| && AllDigits(s[i..j]) && YearOldAt(s, j)
  }

  /** `/\$(\d+)/` matches at `i`, as a search predicate. */
  function BudgetAtFrom(msg: string): nat -> bool
  {
    (i: nat) => BudgetAt(msg, i)
  }

  /** The age pattern matches at `i`, as a search predicate. */
  function AgeAtFrom(msg: string): nat -> bool
  {
    (i: nat) => AgeAt(msg, i)
  }

  /** The budget: the digits after the leftmost `$` that is followed by a
      digit. */
  function ScanBudget(msg: string): (r: Option<nat>)
    ensures r.None? <==> forall i :: 0 <= i < |msg| ==> !BudgetAt(msg, i)
    ensures r.Some? ==> exists i :: (0 <= i < |msg| && BudgetAt(msg, i)
      && (forall k :: 0 <= k < i ==> !BudgetAt(msg, k))
      && r.value == ParseDigits(DigitsAt(msg, i + 1)))
  {
    match FirstWhere(|msg|, 0, BudgetAtFrom(msg))
    case None =>
      BudgetMiss(msg);
      None
    case Some(i) =>
      BudgetHit(msg, i);
      Some(ParseDigits(DigitsAt(msg, i + 1)))
  }

  /** The age: the leftmost digit run followed by `[- ]?year[- ]?old`. */
  function ScanAge(msg: string): (r: Option<nat>)
    ensures r.None? <==> forall i :: 0 <= i < |msg| ==> !AgeAt(msg, i)
    ensures r.Some? ==> exists i :: (0 <= i < |msg| && AgeAt(msg, i)
      && (forall k :: 0 <= k < i ==> !AgeAt(msg, k))
      && r.value == ParseDigits(DigitsAt(msg, i)))
  {
    match FirstWhere(|msg|, 0, AgeAtFrom(msg))
    case None =>
      AgeMiss(msg);
      None
    case Some(i) =>
      AgeHit(msg, i);
      Some(ParseDigits(DigitsAt(msg, i)))
  }

  lemma BudgetMiss(msg: string)
    requires FirstWhere(|msg|, 0, BudgetAtFrom(msg)).None?
    ensures forall i :: 0 <= i < |msg| ==> !BudgetAt(msg, i)
  {
    forall i | 0 <= i < |msg| ensures !BudgetAt(msg, i) {
      assert !BudgetAtFrom(msg)(i);
    }
  }

  lemma BudgetHit(msg: string, i: nat)
    requires FirstWhere(|msg|, 0, BudgetAtFrom(msg)) == Some(i)
    ensures i < |msg| && BudgetAt(msg, i)
    ensures forall k :: 0 <= k < i ==> !BudgetAt(msg, k)
  {
    assert BudgetAtFrom(msg)(i);
    forall k | 0 <= k < i ensures !BudgetAt(msg, k) {
      assert !BudgetAtFrom(msg)(k);
    }
  }

  lemma AgeMiss(msg: string)
    requires FirstWhere(|msg|, 0, AgeAtFrom(msg)).None?
    ensures forall i :: 0 <= i < |msg| ==> !AgeAt(msg, i)
  {
    forall i | 0 <= i < |msg| ensures !AgeAt(msg, i) {
      assert !AgeAtFrom(msg)(i);
    }
  }

  lemma AgeHit(msg: string, i: nat)
    requires FirstWhere(|msg|, 0, AgeAtFrom(msg)) == Some(i)
    ensures i < |msg| && AgeAt(msg, i)
    ensures forall k :: 0 <= k < i ==> !AgeAt(msg, k)
  {
    assert AgeAtFrom(msg)(i);
    forall k | 0 <= k < i ensures !AgeAt(msg, k) {
      assert !AgeAtFrom(msg)(k);
    }
  }

  /** The occasion. The source tests birthday, then bbq/cookout/grilling,
      then party, each test overwriting the previous answer. */
  function ExtractOccasion(msg: string): (r: Option<Occasion>)
    ensures r == Some(Party) <==> Contains(msg, "party")
    ensures r == Some(Bbq) <==>
      (!Contains(msg, "party")
       && (Contains(msg, "bbq") || Contains(msg, "cookout") || Contains(msg, "grilling")))
    ensures r == Some(Birthday) <==>
      (!Contains(msg, "party")
       && !(Contains(msg, "bbq") || Contains(msg, "cookout") || Contains(msg, "grilling"))
       && Contains(msg, "birthday"))
    ensures r == None <==>
      (!Contains(msg, "party") && !Contains(msg, "bbq") && !Contains(msg, "cookout")
       && !Contains(msg, "grilling") && !Contains(msg, "birthday"))
  {
    var afterBirthday := if Contains(msg, "birthday") then Some(Birthday) else None;
    var afterBbq :=
      if Contains(msg, "bbq") || Contains(msg, "cookout") || Contains(msg, "grilling")
      then Some(Bbq) else afterBirthday;
    if Contains(msg, "party") then Some(Party) else afterBbq
  }

  /** The vocabulary words the message contains, in vocabulary order and
      without repeats. */
  function ExtractKeywords(msg: string): (r: seq<string>)
    ensures forall w :: w in r <==> w in Vocabulary && Contains(msg, w)
    ensures forall i, j :: 0 <= i < j < |r| ==> IndexOf(Vocabulary, r[i]) < IndexOf(Vocabulary, r[j])
  {
    var mentioned := (w: string) => Contains(msg, w);
    assert Distinct(Vocabulary);
    FilterKeepsOrder(Vocabulary, mentioned);
    Filter(Vocabulary, mentioned)
  }

  /** `extractRequirements(message)`. */
  function Extract(message: string): (r: Requirements)
    ensures r.budget == ScanBudget(ToLower(message))
    ensures r.age == ScanAge(ToLower(message))
    ensures r.occasion == ExtractOccasion(ToLower(message))
    ensures r.keywords == ExtractKeywords(ToLower(message))
  {
    var msg := ToLower(message);
    Requirements(ScanBudget(msg), ScanAge(msg), ExtractOccasion(msg), ExtractKeywords(msg))
  }

  /** The scanner and the regular expression agree on where an age
      matches, and the captured digits are the whole run: a shorter `\d+`
      would leave a digit where `[- ]?year` must start. */
  lemma AgeMatchIsMaximalRun(s: string, i: nat, j: nat)
    requires i < j <= |s| && AllDigits(s[i..j]) && YearOldAt(s, j)
    ensures j == RunEnd(s, i)
    ensures AgeAt(s, i)
  {
    var e := RunEnd(s, i);
    YearOldStart(s, j);
    SliceDigits(s, i, j);
    if j != e {
      assert false;
    }
  }

  lemma SliceDigits(s: string, i: nat, j: nat)
    requires i <= j <= |s| && AllDigits(s[i..j])
    ensures forall k :: i <= k < j ==> IsDigit(s[k])
  {
    forall k | i <= k < j
      ensures IsDigit(s[k])
    {
      assert s[i..j][k - i] == s[k];
    }
  }

  /** The suffix begins with a separator or with `year`. */
  lemma YearOldStart(s: string, j: nat)
    requires YearOldAt(s, j)
    ensures j < |s| && (s[j] == 'y' || s[j] == '-' || s[j] == ' ')
  {
    if StartsAt(s, j, "year") {
      assert s[j..j + 4][0] == s[j];
    }
  }

  lemma AgeScannerIsRegex(s: string, i: nat)
    ensures AgeAt(s, i) <==> AgeRegexAt(s, i)
  {
    if AgeAt(s, i) {
      assert RunEnd(s, i) > i;
    }
    if AgeRegexAt(s, i) {
      var j :| i < j <= |s| && AllDigits(s[i..j]) && YearOldAt(s, j);
      AgeMatchIsMaximalRun(s, i, j);
    }
  }

  /** The leftmost age match starts a digit run: the age is a whole
      number as written, never the tail of a longer one. */
  lemma AgeStartsRun(s: string)
    requires ScanAge(s).Some?
    ensures exists i :: (0 <= i < |s| && AgeAt(s, i) && (i == 0 || !IsDigit(s[i - 1]))
      && ScanAge(s).value == ParseDigits(DigitsAt(s, i)))
  {
    var f := FirstWhere(|s|, 0, AgeAtFrom(s));
    assert f.Some?;
    var i := f.value;
    AgeHit(s, i);
    assert ScanAge(s).value == ParseDigits(DigitsAt(s, i));
    AgeExtendsLeft(s);
    assert 0 <= i < |s| && AgeAt(s, i) && (i == 0 || !IsDigit(s[i - 1]));
  }

  /** A match preceded by a digit extends to that digit. */
  lemma AgeExtendsLeft(s: string)
    ensures forall k :: 0 < k < |s| && AgeAt(s, k) && IsDigit(s[k - 1]) ==> AgeAt(s, k - 1)
  {
    forall k | 0 < k < |s| && AgeAt(s, k) && IsDigit(s[k - 1])
      ensures AgeAt(s, k - 1)
    {
      assert RunEnd(s, k - 1) == RunEnd(s, k);
    }
  }

  /** A digit run ends at the first non-digit. */
  lemma RunStopsAt(s: string, i: nat, e: nat)
    requires i <= e <= |s|
    requires forall k :: i <= k < e ==> IsDigit(s[k])
    requires e == |s| || !IsDigit(s[e])
    ensures RunEnd(s, i) == e
  {
    var j := RunEnd(s, i);
    if j != e {
      assert false;
    }
  }

  /** A dollar amount after text without a `$` is read back as the budget. */
  lemma BudgetOfDollarAmount(pre: string, n: nat)
    requires '$' !in pre
    ensures ScanBudget(pre + "$" + Decimal(n)) == Some(n)
  {
    var d := Decimal(n);
    var s := pre + "$" + d;
    var p := |pre|;
    assert s[p] == '$' && s[p + 1] == d[0];
    assert BudgetAt(s, p);
    forall k | 0 <= k < p
      ensures !BudgetAt(s, k)
    {
      assert s[k] == pre[k] && pre[k] in pre;
    }
    forall k | p + 1 <= k < |s|
      ensures IsDigit(s[k])
    {
      assert s[k] == d[k - p - 1];
    }
    RunStopsAt(s, p + 1, |s|);
    assert DigitsAt(s, p + 1) == d;
    var r := ScanBudget(s);
    var i :| 0 <= i < |s| && BudgetAt(s, i) && (forall k :: 0 <= k < i ==> !BudgetAt(s, k))
      && r.value == ParseDigits(DigitsAt(s, i + 1));
    assert i == p;
    ParseDecimal(n);
  }

  /** "8-year-old": the number before a hyphenated "year-old" is the age. */
  lemma AgeOfHyphenated(n: nat)
    ensures ScanAge(Decimal(n) + "-year-old") == Some(n)
  {
    var d := Decimal(n);
    var s := d + "-year-old";
    var p := |d|;
    forall k | 0 <= k < p
      ensures IsDigit(s[k])
    {
      assert s[k] == d[k];
    }
    assert s[p] == '-';
    RunStopsAt(s, 0, p);
    assert s[p + 1..p + 5] == "year";
    assert s[p + 5] == '-';
    assert s[p + 6..p + 9] == "old";
    assert YearOldAt(s, p);
    assert AgeAt(s, 0);
    assert DigitsAt(s, 0) == d;
    var r := ScanAge(s);
    var i :| 0 <= i < |s| && AgeAt(s, i) && (forall k :: 0 <= k < i ==> !AgeAt(s, k))
      && r.value == ParseDigits(DigitsAt(s, i));
    assert i == 0;
    ParseDecimal(n);
  }

  /** "8 years old" carries no age: the `s` of "years" sits where the
      pattern wants a separator or "old". */
  lemma NoAgeInPlural(n: nat)
    ensures ScanAge(Decimal(n) + " years old") == None
  {
    var d := Decimal(n);
    var s := d + " years old";
    var p := |d|;
    forall k | 0 <= k < p
      ensures IsDigit(s[k])
    {
      assert s[k] == d[k];
    }
    assert s[p..] == " years old";
    PluralIsNotYearOld(s, p);
    forall i | 0 <= i < |s|
      ensures !AgeAt(s, i)
    {
      if i < p {
        RunStopsAt(s, i, p);
      }
    }
  }

  /** " years old" neither matches `[- ]?year[- ]?old` nor holds a digit. */
  lemma PluralIsNotYearOld(s: string, p: nat)
    requires p <= |s| && s[p..] == " years old"
    ensures !YearOldAt(s, p)
    ensures forall i :: p <= i < |s| ==> !IsDigit(s[i])
  {
    assert s[p..][0] == s[p] && s[p..][5] == s[p + 5];
    assert s[p] == ' ' && s[p + 5] == 's';
    assert !StartsAt(s, p, "year") by { assert s[p..p + 4][0] == ' '; }
    assert !StartsAt(s, p + 5, "old") by { assert s[p + 5..p + 8][0] == 's'; }
    forall i | p <= i < |s| ensures !IsDigit(s[i]) {
      assert s[i] == " years old"[i - p];
    }
  }
}
