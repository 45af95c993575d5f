/** The health profile page (src/pages/HealthProfile.jsx): the single profile
    record, its upsert on save, the onboarding state set when a profile is
    loaded, and the age shown for the date of birth. */
module HealthProfile {
  import opened Wrappers
  import opened Records
  import opened Dates

  /** The stored profile: the fields the other pages read, plus the creation stamp
      written by the first save. */
  datatype Profile = Profile(
    name: string,
    dateOfBirth: string,
    gender: string,
    medications: seq<string>,
    createdAt: Option<string>)

  const EmptyProfile := Profile("", "", "", [], None)

  /** What `calculateAge` displays: `""` for no date of birth, else a whole number of years. */
  datatype Age = Blank | Years(years: int)

  /** Today's month and day come before the birthday's month and day. */
  predicate BeforeBirthday(birth: CalendarDate, today: CalendarDate) {
    today.month < birth.month || (today.month == birth.month && today.day < birth.day)
  }

  /** `calculateAge(dob)`: the year difference, one less while this year's birthday
      is still ahead. `None` is the empty date-of-birth string. */
  function CalculateAge(dob: Option<CalendarDate>, today: CalendarDate): (r: Age)
    ensures dob.None? <==> r == Blank
    ensures dob.Some? ==>
      (r == Years(today.year - dob.value.year) <==> !BeforeBirthday(dob.value, today))
    ensures dob.Some? ==>
      (r == Years(today.year - dob.value.year - 1) <==> BeforeBirthday(dob.value, today))
  {
    match dob
    case None => Blank
    case Some(birth) =>
      var age := today.year - birth.year;
      if BeforeBirthday(birth, today) then Years(age - 1) else Years(age)
  }

  /** The `n`-th anniversary of a birth date. */
  function Anniversary(birth: CalendarDate, n: int): CalendarDate {
    CalendarDate(birth.year + n, birth.month, birth.day)
  }

  /** The age shown is the number of completed years: that anniversary has been
      reached by today and the next one has not. */
  lemma AgeIsCompletedYears(birth: CalendarDate, today: CalendarDate)
    ensures CalculateAge(Some(birth), today).Years?
    ensures DateLe(Anniversary(birth, CalculateAge(Some(birth), today).years), today)
    ensures !DateLe(Anniversary(birth, CalculateAge(Some(birth), today).years + 1), today)
  {
    var n := CalculateAge(Some(birth), today).years;
    if BeforeBirthday(birth, today) {
      assert Anniversary(birth, n).year == today.year - 1;
      assert Anniversary(birth, n + 1).year == today.year;
    } else {
      assert Anniversary(birth, n).year == today.year;
      assert Anniversary(birth, n + 1).year == today.year + 1;
    }
  }

  /** Dexie's `update(id, changes)` on a profile: every key the form object carries
      overwrites the stored one, and a key it lacks keeps the stored value. The only
      key the form can lack is `createdAt` (`None`), which a load brings in and which
      the first save writes only to the store. */
  function MergeProfile(stored: Profile, form: Profile): (r: Profile)
    ensures r.name == form.name && r.dateOfBirth == form.dateOfBirth && r.gender == form.gender
    ensures r.medications == form.medications
    ensures form.createdAt.Some? ==> r.createdAt == form.createdAt
    ensures form.createdAt.None? ==> r.createdAt == stored.createdAt
  {
    form.(createdAt := if form.createdAt.Some? then form.createdAt else stored.createdAt)
  }

  /** A stored creation stamp survives every later save of the form. */
  lemma MergeKeepsCreatedAt(stored: Profile, form: Profile)
    requires stored.createdAt.Some?
    ensures MergeProfile(stored, form).createdAt.Some?
    ensures form.createdAt.None? ==> MergeProfile(stored, form).createdAt == stored.createdAt
  {
  }

  /** Saving the same form again changes nothing more. */
  lemma MergeIdempotent(stored: Profile, form: Profile)
    ensures MergeProfile(MergeProfile(stored, form), form) == MergeProfile(stored, form)
  {
  }

  /** The profile page: the form state, the onboarding state and the `profile` table. */
  class ProfilePage {
    var profile: Profile
    var isFirstVisit: bool
    var onboardingStep: nat
    const table: Table<Profile>

    ghost predicate Valid()
      reads this, table
    {
      table.Valid()
    }

    constructor (table: Table<Profile>)
      requires table.Valid()
      ensures Valid() && this.table == table
      ensures profile == EmptyProfile && isFirstVisit && onboardingStep == 0
    {
      this.table := table;
      profile := EmptyProfile;
      isFirstVisit := true;
      onboardingStep := 0;
    }

    /** `loadProfile`: an existing record fills the form and ends onboarding. */
    method LoadProfile()
      requires Valid()
      modifies this
      ensures Valid()
      ensures |table.rows| > 0 ==> profile == table.rows[0].data && !isFirstVisit && onboardingStep == 4
      ensures |table.rows| == 0 ==>
        profile == old(profile) && isFirstVisit == old(isFirstVisit) && onboardingStep == old(onboardingStep)
    {
      var existing := table.ToArray();
      if |existing| > 0 {
        profile := existing[0].data;
        isFirstVisit := false;
        onboardingStep := 4;
      }
    }

    /** `saveProfile`: merges the form into the first stored profile, or adds the form
        with its creation time when there is none; onboarding ends either way. */
    method SaveProfile(now: string)
      requires Valid()
      modifies this, table
      ensures Valid()
      ensures |old(table.rows)| > 0 ==>
        && table.rows == ReplaceId(old(table.rows), old(table.rows)[0].id, MergeProfile(old(table.rows)[0].data, profile))
        && table.nextId == old(table.nextId)
      ensures |old(table.rows)| == 0 ==>
        && table.rows == [Row(old(table.nextId), profile.(createdAt := Some(now)))]
        && table.nextId == old(table.nextId) + 1
      ensures |table.rows| >= 1
      ensures |old(table.rows)| <= 1 ==> |table.rows| <= 1
      ensures profile == old(profile) && !isFirstVisit && onboardingStep == 4
    {
      var existing := table.ToArray();
      if |existing| > 0 {
        var _ := table.Update(existing[0].id, MergeProfile(existing[0].data, profile));
      } else {
        var _ := table.Add(profile.(createdAt := Some(now)));
      }
      isFirstVisit := false;
      onboardingStep := 4;
    }
  }
}
