/** The three-step onboarding form: birth date and sex, then nationality,
    then life expectancy, ending in a profile handed to the store. */
module Onboarding {
  import opened Wrappers
  import opened Strings
  import opened Civil
  import opened Models
  import opened Countries
  import opened Life
  import opened Utils

  const TotalSteps: int := 3

  /** What pressing Next did: moved to the following step, or finished with the
      profile to store (None when the birth date does not parse). */
  datatype NextOutcome = Moved | Finished(profile: Option<UserProfile>)

  /** The typed life expectancy: `clamp(parseInt(text) || 40, 40, 120)`. */
  function TypedLifeExpectancy(text: string): (years: int)
    ensures 40 <= years <= 120
    ensures ParseInt(text) == None || ParseInt(text) == Some(0) ==> years == 40
    ensures ParseInt(text).Some? && 40 <= ParseInt(text).value <= 120 ==> years == ParseInt(text).value
    ensures ParseInt(text).Some? && ParseInt(text).value > 120 ==> years == 120
    ensures ParseInt(text).Some? && ParseInt(text).value < 40 ==> years == 40
  {
    var typed := ParseInt(text);
    Clamp(if typed == None || typed == Some(0) then 40 else typed.value, 40, 120)
  }

  lemma TypedLifeExpectancyExamples()
    ensures TypedLifeExpectancy("75") == 75
    ensures TypedLifeExpectancy("200") == 120
    ensures TypedLifeExpectancy("") == 40
    ensures TypedLifeExpectancy("abc") == 40
  {
    assert NatToString(75) == NatToString(7) + [DigitChar(5)];
    ParseIntOfNat(75, "");
    assert NatToString(75) + "" == "75";
    assert NatToString(200) == NatToString(20) + [DigitChar(0)];
    assert NatToString(20) == NatToString(2) + [DigitChar(0)];
    ParseIntOfNat(200, "");
    assert NatToString(200) + "" == "200";
    assert !IsDigit('a');
  }

  /** `nationalityCode === 'GLOBAL' ? undefined : nationalityCode`; the empty
      code is absent as well. */
  function ProfileNationality(code: string): (r: Option<string>)
    ensures r.None? <==> code == "GLOBAL" || code == ""
    ensures r.Some? ==> r.value == code
  {
    if code == "GLOBAL" || code == "" then None else Some(code)
  }

  class OnboardingForm {
    var step: int
    var birthDate: string
    var sex: Sex
    var nationalityCode: string
    var lifeExpectancyYears: int

    ghost predicate Valid()
      reads this
    {
      1 <= step <= TotalSteps
    }

    constructor()
      ensures Valid() && step == 1
      ensures birthDate == "" && sex == Male && nationalityCode == "GLOBAL" && lifeExpectancyYears == 82
    {
      step := 1;
      birthDate := "";
      sex := Male;
      nationalityCode := "GLOBAL";
      lifeExpectancyYears := 82;
    }

    /** Whether Next is enabled. */
    function CanProceed(): (b: bool)
      reads this
      ensures step == 1 ==> (b <==> birthDate != "")
      ensures step == 2 ==> (b <==> nationalityCode != "")
      ensures step == 3 ==> (b <==> 40 <= lifeExpectancyYears <= 120)
      ensures step !in {1, 2, 3} ==> !b
    {
      if step == 1 then birthDate != ""
      else if step == 2 then nationalityCode != ""
      else if step == 3 then 40 <= lifeExpectancyYears && lifeExpectancyYears <= 120
      else false
    }

    /** `handleFinish`: the profile built from the form. */
    function FinishProfile(): (p: Option<UserProfile>)
      reads this
      ensures p.Some? <==> CreateISOFromDate(birthDate).Some?
      ensures p.Some? ==>
                && p.value.birth == CreateISOFromDate(birthDate).value
                && p.value.sex == sex
                && p.value.nationalityCode == ProfileNationality(nationalityCode)
                && p.value.lifeExpectancyYears == lifeExpectancyYears
    {
      var birth := CreateISOFromDate(birthDate);
      if birth.None? then None
      else Some(UserProfile(birth.value, sex, ProfileNationality(nationalityCode), lifeExpectancyYears))
    }

    method HandleNext() returns (outcome: NextOutcome)
      requires Valid()
      modifies this
      ensures Valid()
      ensures old(step) < TotalSteps ==> step == old(step) + 1 && outcome == Moved
      ensures old(step) == 2 ==> lifeExpectancyYears == GetLifeExpectancyByCountry(Some(nationalityCode))
      ensures old(step) != 2 ==> lifeExpectancyYears == old(lifeExpectancyYears)
      ensures old(step) == TotalSteps ==> step == TotalSteps && outcome == Finished(FinishProfile())
      ensures birthDate == old(birthDate) && sex == old(sex) && nationalityCode == old(nationalityCode)
    {
      if step < TotalSteps {
        if step == 2 {
          lifeExpectancyYears := GetLifeExpectancyByCountry(Some(nationalityCode));
        }
        step := step + 1;
        outcome := Moved;
      } else {
        outcome := Finished(FinishProfile());
      }
    }

    method HandleBack()
      requires Valid()
      modifies this
      ensures Valid()
      ensures step == if old(step) > 1 then old(step) - 1 else old(step)
      ensures birthDate == old(birthDate) && sex == old(sex) && nationalityCode == old(nationalityCode)
      ensures lifeExpectancyYears == old(lifeExpectancyYears)
    {
      if step > 1 {
        step := step - 1;
      }
    }

    method SetBirthDate(value: string)
      modifies this
      ensures birthDate == value
      ensures step == old(step) && sex == old(sex) && nationalityCode == old(nationalityCode)
      ensures lifeExpectancyYears == old(lifeExpectancyYears)
    {
      birthDate := value;
    }

    method SetSex(value: Sex)
      modifies this
      ensures sex == value
      ensures step == old(step) && birthDate == old(birthDate) && nationalityCode == old(nationalityCode)
      ensures lifeExpectancyYears == old(lifeExpectancyYears)
    {
      sex := value;
    }

    method SetNationality(code: string)
      modifies this
      ensures nationalityCode == code
      ensures step == old(step) && birthDate == old(birthDate) && sex == old(sex)
      ensures lifeExpectancyYears == old(lifeExpectancyYears)
    {
      nationalityCode := code;
    }

    /** The number box: whatever is typed lands in 40..120, so step 3 can proceed. */
    method TypeLifeExpectancy(text: string)
      modifies this
      ensures lifeExpectancyYears == TypedLifeExpectancy(text)
      ensures step == old(step) && birthDate == old(birthDate) && sex == old(sex)
      ensures nationalityCode == old(nationalityCode)
      ensures step == 3 ==> CanProceed()
    {
      lifeExpectancyYears := TypedLifeExpectancy(text);
    }

    /** The slider: its value is taken as it is. */
    method SlideLifeExpectancy(value: int)
      modifies this
      ensures lifeExpectancyYears == value
      ensures step == old(step) && birthDate == old(birthDate) && sex == old(sex)
      ensures nationalityCode == old(nationalityCode)
    {
      lifeExpectancyYears := value;
    }
  }

  /** A whole run: a typed birth date, a country, Next twice, then Finish,
      gives a profile with that country's life expectancy. */
  method OnboardWithDefaults(birthDate: string, code: string) returns (outcome: NextOutcome)
    ensures CreateISOFromDate(birthDate).Some? ==>
              outcome == Finished(Some(UserProfile(CreateISOFromDate(birthDate).value, Male, ProfileNationality(code),
                                                   GetLifeExpectancyByCountry(Some(code)))))
    ensures CreateISOFromDate(birthDate).None? ==> outcome == Finished(None)
  {
    var form := new OnboardingForm();
    form.SetBirthDate(birthDate);
    form.SetNationality(code);
    var first := form.HandleNext();
    var second := form.HandleNext();
    outcome := form.HandleNext();
  }
}
