/** The age distribution of the analytics page: members with a birth date
    are counted into six age ranges. */
module Views {
  import opened Calendar
  import opened Values
  import Models

  /** The six age ranges, tested in this order. */
  datatype AgeRange = UpTo17 | From18To25 | From26To35 | From36To50 | From51To65 | Over65
  {
    /** The key the range is counted under. */
    function Label(): string
    {
      match this
      case UpTo17 => "0-17"
      case From18To25 => "18-25"
      case From26To35 => "26-35"
      case From36To50 => "36-50"
      case From51To65 => "51-65"
      case Over65 => "65+"
    }

    /** The ages the range covers. */
    predicate Holds(age: int)
    {
      match this
      case UpTo17 => age <= 17
      case From18To25 => 18 <= age <= 25
      case From26To35 => 26 <= age <= 35
      case From36To50 => 36 <= age <= 50
      case From51To65 => 51 <= age <= 65
      case Over65 => 65 < age
    }
  }

  /** The keys of the age distribution. */
  const RangeLabels: set<string> := {"0-17", "18-25", "26-35", "36-50", "51-65", "65+"}

  /** The range the if-chain picks for an age. */
  function RangeOf(age: int): (g: AgeRange)
    ensures g.Holds(age)
  {
    if age <= 17 then UpTo17
    else if age <= 25 then From18To25
    else if age <= 35 then From26To35
    else if age <= 50 then From36To50
    else if age <= 65 then From51To65
    else Over65
  }

  /** The ranges do not overlap, so each age belongs to exactly the range
      the if-chain picks. */
  lemma RangesPartition(age: int, g: AgeRange)
    ensures g.Holds(age) <==> g == RangeOf(age)
  {
  }

  /** Distinct ranges are counted under distinct keys, all of them keys of
      the distribution. */
  lemma LabelsDistinct(g: AgeRange, h: AgeRange)
    ensures g.Label() in RangeLabels
    ensures g.Label() == h.Label() <==> g == h
  {
  }

  /** `Member.objects.filter(birth_date__isnull=False)`: the members with a
      birth date, in their order. */
  function WithBirthDate(members: seq<Models.Member>): (r: seq<Models.Member>)
    ensures |r| <= |members|
    ensures forall m :: m in r <==> m in members && m.birthDate.Some?
  {
    if members == [] then []
    else
      var init, last := members[..|members| - 1], members[|members| - 1];
      assert members == init + [last];
      WithBirthDate(init) + if last.birthDate.Some? then [last] else []
  }

  /** The filter keeps every member with a birth date as often as it occurs,
      and no other member. */
  lemma {:induction false} WithBirthDateCounts(members: seq<Models.Member>)
    ensures forall m :: multiset(WithBirthDate(members))[m] ==
                          if m.birthDate.Some? then multiset(members)[m] else 0
  {
    if members != [] {
      var init, last := members[..|members| - 1], members[|members| - 1];
      assert members == init + [last];
      WithBirthDateCounts(init);
    }
  }

  /** The ages, on `today`, of the members that have one, in order. */
  function AgesOf(members: seq<Models.Member>, today: Date): (r: seq<int>)
    ensures |r| <= |members|
    ensures (forall m :: m in members ==> m.birthDate.Some?) ==> |r| == |members|
  {
    if members == [] then []
    else
      var init, last := members[..|members| - 1], members[|members| - 1];
      assert forall m :: m in init ==> m in members;
      AgesOf(init, today) + match Models.Age(last, today) case Some(a) => [a] case None => []
  }

  /** The ages of one more member are the earlier ages and, when it has
      one, the new member's age. */
  lemma AgesOfStep(members: seq<Models.Member>, i: nat, today: Date)
    requires i < |members|
    ensures var age := Models.Age(members[i], today);
      && (age.Some? ==> AgesOf(members[..i + 1], today) == AgesOf(members[..i], today) + [age.value])
      && (age.None? ==> AgesOf(members[..i + 1], today) == AgesOf(members[..i], today))
  {
    assert members[..i + 1][..i] == members[..i];
    assert AgesOf(members[..i], today) + [] == AgesOf(members[..i], today);
  }

  /** Every member the birth-date filter keeps has an age. */
  lemma AgesOfWithBirthDate(members: seq<Models.Member>, today: Date)
    ensures |AgesOf(WithBirthDate(members), today)| == |WithBirthDate(members)|
  {
  }

  /** How many of `ages` fall in range `g`. */
  function Tally(ages: seq<int>, g: AgeRange): (n: nat)
    ensures n <= |ages|
  {
    if ages == [] then 0
    else Tally(ages[..|ages| - 1], g) + if g.Holds(ages[|ages| - 1]) then 1 else 0
  }

  /** Every age is counted in exactly one range. */
  lemma {:induction false} TallyTotal(ages: seq<int>)
    ensures Tally(ages, UpTo17) + Tally(ages, From18To25) + Tally(ages, From26To35)
          + Tally(ages, From36To50) + Tally(ages, From51To65) + Tally(ages, Over65) == |ages|
  {
    if ages != [] {
      TallyTotal(ages[..|ages| - 1]);
      var a := ages[|ages| - 1];
      RangesPartition(a, UpTo17);
      RangesPartition(a, From18To25);
      RangesPartition(a, From26To35);
      RangesPartition(a, From36To50);
      RangesPartition(a, From51To65);
      RangesPartition(a, Over65);
    }
  }

  /** Counting more ages never lowers a range's count. */
  lemma {:induction false} TallyGrows(ages: seq<int>, more: seq<int>, g: AgeRange)
    ensures Tally(ages, g) <= Tally(ages + more, g)
    decreases |more|
  {
    if more != [] {
      var init := more[..|more| - 1];
      assert (ages + more)[..|ages + more| - 1] == ages + init;
      TallyGrows(ages, init, g);
      assert Tally(ages + init, g) <= Tally(ages + more, g);
    } else {
      assert ages + more == ages;
    }
  }

  /** All six ranges. */
  const AllRanges: set<AgeRange> := {UpTo17, From18To25, From26To35, From36To50, From51To65, Over65}

  /** Every age range is one of the six. */
  lemma AllRangesComplete()
    ensures forall g: AgeRange :: g in AllRanges
  {
    forall g: AgeRange ensures g in AllRanges {
      match g
      case UpTo17 =>
      case From18To25 =>
      case From26To35 =>
      case From36To50 =>
      case From51To65 =>
      case Over65 =>
    }
  }

  /** The distribution the analytics page shows for a list of ages: the
      number of ages in each range. */
  function Distribution(ages: seq<int>): (r: map<AgeRange, int>)
    ensures r.Keys == AllRanges
    ensures forall g: AgeRange :: g in r && r[g] == Tally(ages, g)
  {
    AllRangesComplete();
    map[UpTo17 := Tally(ages, UpTo17)]
       [From18To25 := Tally(ages, From18To25)]
       [From26To35 := Tally(ages, From26To35)]
       [From36To50 := Tally(ages, From36To50)]
       [From51To65 := Tally(ages, From51To65)]
       [Over65 := Tally(ages, Over65)]
  }

  /** Before any age is counted every range is at zero. */
  lemma DistributionEmpty()
    ensures Distribution([]) == map[UpTo17 := 0][From18To25 := 0][From26To35 := 0]
                                   [From36To50 := 0][From51To65 := 0][Over65 := 0]
  {
  }

  /** Counting one more age adds one to its range and leaves the other
      ranges alone. */
  lemma DistributionStep(ages: seq<int>, a: int)
    ensures Distribution(ages + [a]) == Distribution(ages)[RangeOf(a) := Distribution(ages)[RangeOf(a)] + 1]
  {
    var want, next := Distribution(ages + [a]), Distribution(ages)[RangeOf(a) := Distribution(ages)[RangeOf(a)] + 1];
    forall g | g in want ensures g in next && want[g] == next[g] {
      assert (ages + [a])[..|ages|] == ages;
      RangesPartition(a, g);
    }
    assert want == next;
  }

  /** One pass of the loop body keeps the counters equal to the
      distribution of the ages counted so far. */
  lemma CountStep(members: seq<Models.Member>, i: nat, today: Date, age: Option<int>,
                  prev: map<AgeRange, int>, next: map<AgeRange, int>)
    requires i < |members| && age == Models.Age(members[i], today)
    requires prev == Distribution(AgesOf(members[..i], today))
    requires age.None? ==> next == prev
    requires age.Some? ==> RangeOf(age.value) in prev && next == prev[RangeOf(age.value) := prev[RangeOf(age.value)] + 1]
    ensures next == Distribution(AgesOf(members[..i + 1], today))
  {
    AgesOfStep(members, i, today);
    if age.Some? {
      DistributionStep(AgesOf(members[..i], today), age.value);
    }
  }

  /** A birth date in the future gives a negative age, which the first test
      (`age <= 17`) counts as a minor. */
  lemma FutureBirthCountsAsMinor(m: Models.Member, today: Date)
    requires m.birthDate.Some? && Before(today, m.birthDate.value)
    ensures Models.Age(m, today).value < 0
    ensures RangeOf(Models.Age(m, today).value) == UpTo17
  {
  }

  /** One step of the age-range loop: the if-chain adds one to the counter
      of the first range whose upper bound the age does not exceed. */
  method AddToRange(ranges: map<AgeRange, int>, age: int) returns (next: map<AgeRange, int>)
    requires AllRanges <= ranges.Keys
    ensures next == ranges[RangeOf(age) := ranges[RangeOf(age)] + 1]
  {
    if age <= 17 {
      next := ranges[UpTo17 := ranges[UpTo17] + 1];
    } else if age <= 25 {
      next := ranges[From18To25 := ranges[From18To25] + 1];
    } else if age <= 35 {
      next := ranges[From26To35 := ranges[From26To35] + 1];
    } else if age <= 50 {
      next := ranges[From36To50 := ranges[From36To50] + 1];
    } else if age <= 65 {
      next := ranges[From51To65 := ranges[From51To65] + 1];
    } else {
      next := ranges[Over65 := ranges[Over65] + 1];
    }
  }

  /** The age-range loop of the analytics page: six counters start at zero
      and every member with a birth date adds one to the counter of the
      range its age falls in. */
  method CountAgeRanges(members: seq<Models.Member>, today: Date) returns (ranges: map<AgeRange, int>)
    ensures ranges == Distribution(AgesOf(WithBirthDate(members), today))
  {
    ranges := map[UpTo17 := 0][From18To25 := 0][From26To35 := 0][From36To50 := 0][From51To65 := 0][Over65 := 0];
    var dated := WithBirthDate(members);
    DistributionEmpty();
    for i := 0 to |dated|
      invariant ranges == Distribution(AgesOf(dated[..i], today))
    {
      ghost var prev := ranges;
      var age := Models.Age(dated[i], today);
      if age.Some? {
        ranges := AddToRange(ranges, age.value);
      }
      CountStep(dated, i, today, age, prev, ranges);
    }
    assert dated[..|dated|] == dated;
  }

  /** After the loop the counters add up to the number of members with a
      birth date, each is the number of ages in its range, and there is no
      counter but the six. */
  lemma CountAgeRangesTotal(members: seq<Models.Member>, today: Date)
    ensures var r := Distribution(AgesOf(WithBirthDate(members), today));
      && r.Keys == AllRanges
      && r[UpTo17] + r[From18To25] + r[From26To35] + r[From36To50] + r[From51To65] + r[Over65]
         == |WithBirthDate(members)|
  {
    TallyTotal(AgesOf(WithBirthDate(members), today));
    AgesOfWithBirthDate(members, today);
  }
}
