/** The church-member records: the choice lists of their fields, the
    defaults a new record takes, a member's age, and the uniqueness rules
    the database keeps on the member, interest and attendance tables. */
module Models {
  import opened Calendar
  import opened Values

  // ---------------------------------------------------------------------
  // Choice lists. Each field with `choices` stores a short code; every
  // value of the field is listed once, and no two values share a code.

  datatype MaritalStatus = Single | Married | Divorced | Widowed | OtherStatus
  {
    function Code(): string
    {
      match this
      case Single => "single"
      case Married => "married"
      case Divorced => "divorced"
      case Widowed => "widowed"
      case OtherStatus => "other"
    }
  }

  datatype MemberStatus = Active | Inactive | Visitor | New
  {
    function Code(): string
    {
      match this
      case Active => "active"
      case Inactive => "inactive"
      case Visitor => "visitor"
      case New => "new"
    }
  }

  datatype ContactPreference = ByEmail | ByPhone | ByWhatsapp | BySms
  {
    function Code(): string
    {
      match this
      case ByEmail => "email"
      case ByPhone => "phone"
      case ByWhatsapp => "whatsapp"
      case BySms => "sms"
    }
  }

  datatype ChurchDiscovery = Indication | AtEvent | SocialMedia | Website | Location | OtherWay
  {
    function Code(): string
    {
      match this
      case Indication => "indication"
      case AtEvent => "event"
      case SocialMedia => "social_media"
      case Website => "website"
      case Location => "location"
      case OtherWay => "other"
    }
  }

  datatype EventPreference = Presential | Online | Both
  {
    function Code(): string
    {
      match this
      case Presential => "presential"
      case Online => "online"
      case Both => "both"
    }
  }

  datatype FaithStage = Beginner | Growing | ActiveInFaith | Mature
  {
    function Code(): string
    {
      match this
      case Beginner => "beginner"
      case Growing => "growing"
      case ActiveInFaith => "active"
      case Mature => "mature"
    }
  }

  datatype GroupType = Cell | Ministry | Course | PlainGroup
  {
    function Code(): string
    {
      match this
      case Cell => "cell"
      case Ministry => "ministry"
      case Course => "course"
      case PlainGroup => "group"
    }
  }

  datatype Role = MemberRole | Leader | Coordinator | Volunteer
  {
    function Code(): string
    {
      match this
      case MemberRole => "member"
      case Leader => "leader"
      case Coordinator => "coordinator"
      case Volunteer => "volunteer"
    }
  }

  datatype EventType = Service | CellMeeting | CourseClass | SpecialEvent
  {
    function Code(): string
    {
      match this
      case Service => "service"
      case CellMeeting => "cell"
      case CourseClass => "course"
      case SpecialEvent => "event"
    }
  }

  /** A choice list: every value appears in `all`, and no two entries of
      `all` share a code. */
  ghost predicate ChoiceList<T(!new)>(all: seq<T>, code: T -> string)
  {
    && (forall x: T :: x in all)
    && (forall i, j :: 0 <= i < j < |all| ==> code(all[i]) != code(all[j]))
  }

  /** The value a stored code stands for, if any: what Django's `choices`
      validation accepts. */
  function Parse<T>(all: seq<T>, code: T -> string, c: string): (r: Option<T>)
    ensures r.Some? ==> r.value in all && code(r.value) == c
    ensures r.None? ==> forall i :: 0 <= i < |all| ==> code(all[i]) != c
  {
    if all == [] then None
    else if code(all[0]) == c then Some(all[0])
    else
      var r := Parse(all[1..], code, c);
      assert forall i :: 1 <= i < |all| ==> all[i] == all[1..][i - 1];
      r
  }

  /** Reading back a stored code gives the value that was stored. */
  lemma {:induction false} ParseCode<T(!new)>(all: seq<T>, code: T -> string, x: T)
    requires ChoiceList(all, code)
    ensures Parse(all, code, code(x)) == Some(x)
  {
    var r := Parse(all, code, code(x));
    assert x in all;
    var k :| 0 <= k < |all| && all[k] == x;
    assert r.Some?;
    var j :| 0 <= j < |all| && all[j] == r.value;
    assert j == k;
  }

  function MaritalStatusCode(s: MaritalStatus): string { s.Code() }
  function MemberStatusCode(s: MemberStatus): string { s.Code() }
  function ContactPreferenceCode(p: ContactPreference): string { p.Code() }
  function ChurchDiscoveryCode(d: ChurchDiscovery): string { d.Code() }
  function EventPreferenceCode(p: EventPreference): string { p.Code() }
  function FaithStageCode(s: FaithStage): string { s.Code() }
  function GroupTypeCode(t: GroupType): string { t.Code() }
  function RoleCode(r: Role): string { r.Code() }
  function EventTypeCode(t: EventType): string { t.Code() }

  const MaritalStatuses: seq<MaritalStatus> := [Single, Married, Divorced, Widowed, OtherStatus]
  const MemberStatuses: seq<MemberStatus> := [Active, Inactive, Visitor, New]
  const ContactPreferences: seq<ContactPreference> := [ByEmail, ByPhone, ByWhatsapp, BySms]
  const ChurchDiscoveries: seq<ChurchDiscovery> := [Indication, AtEvent, SocialMedia, Website, Location, OtherWay]
  const EventPreferences: seq<EventPreference> := [Presential, Online, Both]
  const FaithStages: seq<FaithStage> := [Beginner, Growing, ActiveInFaith, Mature]
  const GroupTypes: seq<GroupType> := [Cell, Ministry, Course, PlainGroup]
  const Roles: seq<Role> := [MemberRole, Leader, Coordinator, Volunteer]
  const EventTypes: seq<EventType> := [Service, CellMeeting, CourseClass, SpecialEvent]

  /** The MaritalStatus choices list each value once under its own code. */
  lemma MaritalStatusChoices()
    ensures ChoiceList(MaritalStatuses, MaritalStatusCode)
  {
    forall m: MaritalStatus ensures m in MaritalStatuses {
      match m
      case Single =>
      case Married =>
      case Divorced =>
      case Widowed =>
      case OtherStatus =>
    }
  }

  /** The MemberStatus choices list each value once under its own code. */
  lemma MemberStatusChoices()
    ensures ChoiceList(MemberStatuses, MemberStatusCode)
  {
    forall m: MemberStatus ensures m in MemberStatuses {
      match m
      case Active =>
      case Inactive =>
      case Visitor =>
      case New =>
    }
  }

  /** The ContactPreference choices list each value once under its own code. */
  lemma ContactPreferenceChoices()
    ensures ChoiceList(ContactPreferences, ContactPreferenceCode)
  {
    forall c: ContactPreference ensures c in ContactPreferences {
      match c
      case ByEmail =>
      case ByPhone =>
      case ByWhatsapp =>
      case BySms =>
    }
  }

  /** The ChurchDiscovery choices list each value once under its own code. */
  lemma ChurchDiscoveryChoices()
    ensures ChoiceList(ChurchDiscoveries, ChurchDiscoveryCode)
  {
    forall c: ChurchDiscovery ensures c in ChurchDiscoveries {
      match c
      case Indication =>
      case AtEvent =>
      case SocialMedia =>
      case Website =>
      case Location =>
      case OtherWay =>
    }
  }

  /** The EventPreference choices list each value once under its own code. */
  lemma EventPreferenceChoices()
    ensures ChoiceList(EventPreferences, EventPreferenceCode)
  {
    forall e: EventPreference ensures e in EventPreferences {
      match e
      case Presential =>
      case Online =>
      case Both =>
    }
  }

  /** The FaithStage choices list each value once under its own code. */
  lemma FaithStageChoices()
    ensures ChoiceList(FaithStages, FaithStageCode)
  {
    forall f: FaithStage ensures f in FaithStages {
      match f
      case Beginner =>
      case Growing =>
      case ActiveInFaith =>
      case Mature =>
    }
  }

  /** The GroupType choices list each value once under its own code. */
  lemma GroupTypeChoices()
    ensures ChoiceList(GroupTypes, GroupTypeCode)
  {
    forall g: GroupType ensures g in GroupTypes {
      match g
      case Cell =>
      case Ministry =>
      case Course =>
      case PlainGroup =>
    }
  }

  /** The Role choices list each value once under its own code. */
  lemma RoleChoices()
    ensures ChoiceList(Roles, RoleCode)
  {
    forall r: Role ensures r in Roles {
      match r
      case MemberRole =>
      case Leader =>
      case Coordinator =>
      case Volunteer =>
    }
  }

  /** The EventType choices list each value once under its own code. */
  lemma EventTypeChoices()
    ensures ChoiceList(EventTypes, EventTypeCode)
  {
    forall e: EventType ensures e in EventTypes {
      match e
      case Service =>
      case CellMeeting =>
      case CourseClass =>
      case SpecialEvent =>
    }
  }

  /** A member's status is stored as exactly one of four codes, and each of
      them reads back as the status it came from. */
  lemma MemberStatusCodes(s: MemberStatus)
    ensures s.Code() in {"active", "inactive", "visitor", "new"}
    ensures Parse(MemberStatuses, MemberStatusCode, s.Code()) == Some(s)
  {
    MemberStatusChoices();
    ParseCode(MemberStatuses, MemberStatusCode, s);
  }

  /** Only the four status codes are accepted. */
  lemma MemberStatusParse(c: string)
    ensures Parse(MemberStatuses, MemberStatusCode, c).Some? <==> c in {"active", "inactive", "visitor", "new"}
  {
    var r := Parse(MemberStatuses, MemberStatusCode, c);
    if c in {"active", "inactive", "visitor", "new"} {
      var s := if c == "active" then Active else if c == "inactive" then Inactive
               else if c == "visitor" then Visitor else New;
      MemberStatusCodes(s);
    }
  }

  // ---------------------------------------------------------------------
  // Records. A blank choice or date is `None`; free text is a string.

  /** A moment: a date and the seconds elapsed since its midnight. */
  datatype Timestamp = Timestamp(date: Date, seconds: nat)

  datatype Member = Member(
    fullName: string,
    gender: string,
    birthDate: Option<Date>,
    maritalStatus: Option<MaritalStatus>,
    phone: string,
    email: string,
    address: string,
    neighborhood: string,
    memberStatus: MemberStatus,
    entryDate: Option<Date>,
    lastAttendance: Option<Date>,
    contactPreference: Option<ContactPreference>,
    churchDiscovery: Option<ChurchDiscovery>,
    eventPreference: EventPreference,
    availabilityNotes: string,
    lastActivity: Option<Timestamp>,
    engagementScore: int,
    giftsAptitudes: string,
    prayerRequests: string,
    testimonies: string,
    churchAttendanceTime: string,
    previousChurches: string,
    churchDiscoveryOther: string,
    previousParticipation: string,
    volunteerInterest: bool,
    volunteerAreas: string,
    availableDays: string,
    availableTimes: string,
    communityInterests: string,
    seekingInChurch: string,
    openToNewGroups: bool,
    groupPreferences: string,
    faithStage: Option<FaithStage>,
    pastoralCareInterest: bool,
    faithChallenges: string,
    onboardingCompleted: bool,
    inchurchId: string)

  /** Every text field declared `blank=True` without a default is empty. */
  predicate BlankText(m: Member)
  {
    && m.gender == "" && m.phone == "" && m.email == "" && m.address == "" && m.neighborhood == ""
    && m.availabilityNotes == "" && m.giftsAptitudes == "" && m.prayerRequests == "" && m.testimonies == ""
    && m.churchAttendanceTime == "" && m.previousChurches == "" && m.churchDiscoveryOther == ""
    && m.previousParticipation == "" && m.volunteerAreas == "" && m.availableDays == ""
    && m.availableTimes == "" && m.communityInterests == "" && m.seekingInChurch == ""
    && m.groupPreferences == "" && m.faithChallenges == ""
  }

  /** A member created with only its required fields: every other field
      takes the default the model declares. */
  function NewMember(fullName: string, inchurchId: string): (m: Member)
    ensures m.fullName == fullName && m.inchurchId == inchurchId
    ensures m.memberStatus == Visitor && m.memberStatus.Code() == "visitor"
    ensures m.eventPreference == Presential && m.eventPreference.Code() == "presential"
    ensures m.engagementScore == 0
    ensures m.openToNewGroups
    ensures !m.volunteerInterest && !m.pastoralCareInterest && !m.onboardingCompleted
    ensures m.birthDate.None? && m.entryDate.None? && m.lastAttendance.None? && m.lastActivity.None?
    ensures m.maritalStatus.None? && m.contactPreference.None? && m.churchDiscovery.None? && m.faithStage.None?
    ensures BlankText(m)
  {
    Member(fullName, "", None, None, "", "", "", "", Visitor, None, None, None, None, Presential, "", None, 0,
           "", "", "", "", "", "", "", false, "", "", "", "", "", true, "", None, false, "", false, inchurchId)
  }

  datatype InterestArea = InterestArea(name: string, description: string)

  /** A member's interest in an area; `member` and `interestArea` are the
      ids of the referenced rows. */
  datatype MemberInterest = MemberInterest(member: nat, interestArea: nat, level: int)

  function NewMemberInterest(member: nat, interestArea: nat): (i: MemberInterest)
    ensures i.member == member && i.interestArea == interestArea && i.level == 1
  {
    MemberInterest(member, interestArea, 1)
  }

  datatype Group = Group(name: string, groupType: GroupType, description: string, isActive: bool)

  function NewGroup(name: string, groupType: GroupType): (g: Group)
    ensures g.name == name && g.groupType == groupType && g.description == "" && g.isActive
  {
    Group(name, groupType, "", true)
  }

  datatype MemberParticipation = MemberParticipation(
    member: nat, group: nat, role: Role, startDate: Date, endDate: Option<Date>, isCurrent: bool)

  function NewParticipation(member: nat, group: nat, startDate: Date): (p: MemberParticipation)
    ensures p.member == member && p.group == group && p.startDate == startDate
    ensures p.role == MemberRole && p.role.Code() == "member" && p.endDate.None? && p.isCurrent
  {
    MemberParticipation(member, group, MemberRole, startDate, None, true)
  }

  datatype AttendanceRecord = AttendanceRecord(
    member: nat, eventName: string, eventDate: Date, eventType: EventType, attended: bool)

  function NewAttendance(member: nat, eventName: string, eventDate: Date, eventType: EventType): (a: AttendanceRecord)
    ensures a.member == member && a.eventName == eventName && a.eventDate == eventDate
    ensures a.eventType == eventType && a.attended
  {
    AttendanceRecord(member, eventName, eventDate, eventType, true)
  }

  // ---------------------------------------------------------------------
  // Age.

  /** `Member.age` on the given day: the whole years since the birth date,
      one less while this year's birthday is still ahead; `None` without a
      birth date. */
  function Age(m: Member, today: Date): (r: Option<int>)
    ensures r.None? <==> m.birthDate.None?
    ensures r.Some? ==>
              && NotAfter(Anniversary(m.birthDate.value, r.value), today)
              && Before(today, Anniversary(m.birthDate.value, r.value + 1))
  {
    match m.birthDate
    case None => None
    case Some(b) =>
      var birthdayAhead := MonthDayBefore(today.month, today.day, b.month, b.day);
      Some(today.year - b.year - if birthdayAhead then 1 else 0)
  }

  /** Anniversaries come in calendar order. */
  lemma AnniversaryOrder(b: YearMonthDay, n: int, k: int)
    requires n < k
    ensures Before(Anniversary(b, n), Anniversary(b, k))
  {
  }

  /** The age is the only number of years whose anniversary has been
      reached while the next one has not. */
  lemma AgeUnique(m: Member, today: Date, n: int)
    requires m.birthDate.Some?
    requires NotAfter(Anniversary(m.birthDate.value, n), today)
    requires Before(today, Anniversary(m.birthDate.value, n + 1))
    ensures Age(m, today) == Some(n)
  {
  }

  /** Someone born on or before today has a non-negative age. */
  lemma AgeNonNegative(m: Member, today: Date)
    requires m.birthDate.Some? && NotAfter(m.birthDate.value, today)
    ensures Age(m, today).Some? && Age(m, today).value >= 0
  {
  }

  /** On a birthday the age is exactly the difference of the years. */
  lemma AgeOnAnniversary(m: Member, today: Date)
    requires m.birthDate.Some?
    requires today.month == m.birthDate.value.month && today.day == m.birthDate.value.day
    ensures Age(m, today) == Some(today.year - m.birthDate.value.year)
  {
    AgeUnique(m, today, today.year - m.birthDate.value.year);
  }

  /** A later day never gives a smaller age. */
  lemma AgeMonotone(m: Member, d1: Date, d2: Date)
    requires m.birthDate.Some? && NotAfter(d1, d2)
    ensures Age(m, d1).value <= Age(m, d2).value
  {
    var b, a1, a2 := m.birthDate.value, Age(m, d1).value, Age(m, d2).value;
    if a2 < a1 {
      AnniversaryOrder(b, a2 + 1, a1);
    }
  }

  // ---------------------------------------------------------------------
  // Tables with a unique key.

  /** No two rows of a table share a key. */
  ghost predicate UniqueBy<T, K>(rows: seq<T>, key: T -> K)
  {
    forall i, j :: 0 <= i < j < |rows| ==> key(rows[i]) != key(rows[j])
  }

  /** The first row with key `k`, if any. */
  function IndexOfKey<T, K(==)>(rows: seq<T>, k: K, key: T -> K): (r: Option<nat>)
    ensures r.Some? ==> r.value < |rows| && key(rows[r.value]) == k
    ensures r.Some? ==> forall i :: 0 <= i < r.value ==> key(rows[i]) != k
    ensures r.None? ==> forall i :: 0 <= i < |rows| ==> key(rows[i]) != k
  {
    if rows == [] then None
    else if key(rows[0]) == k then Some(0)
    else
      match IndexOfKey(rows[1..], k, key)
      case None => None
      case Some(i) => Some(i + 1)
  }

  /** The outcome of saving a row: the new table, or the database's
      `IntegrityError` when the row would repeat a key. */
  datatype Saved<T> = Saved(rows: seq<T>) | IntegrityError

  /** Adding a row: refused exactly when its key is already taken. */
  function Insert<T, K(==)>(rows: seq<T>, row: T, key: T -> K): (r: Saved<T>)
    ensures r.IntegrityError? <==> exists i :: 0 <= i < |rows| && key(rows[i]) == key(row)
    ensures r.Saved? ==> r.rows == rows + [row]
    ensures UniqueBy(rows, key) && r.Saved? ==> UniqueBy(r.rows, key)
  {
    match IndexOfKey(rows, key(row), key)
    case Some(_) => IntegrityError
    case None => Saved(rows + [row])
  }

  /** Changing row `n`: refused exactly when another row has the new key. */
  function Update<T, K(==)>(rows: seq<T>, n: nat, row: T, key: T -> K): (r: Saved<T>)
    requires n < |rows|
    ensures r.IntegrityError? <==> exists i :: 0 <= i < |rows| && i != n && key(rows[i]) == key(row)
    ensures r.Saved? ==> r.rows == rows[n := row]
    ensures UniqueBy(rows, key) && r.Saved? ==> UniqueBy(r.rows, key)
  {
    var others := rows[..n] + rows[n + 1..];
    assert forall i :: 0 <= i < |rows| && i != n ==> rows[i] in others by {
      forall i | 0 <= i < |rows| && i != n ensures rows[i] in others {
        if i < n { assert others[i] == rows[i]; } else { assert others[i - 1] == rows[i]; }
      }
    }
    match IndexOfKey(others, key(row), key)
    case Some(j) =>
      assert j < n ==> others[j] == rows[j];
      assert j >= n ==> others[j] == rows[j + 1];
      IntegrityError
    case None =>
      assert forall i :: 0 <= i < |rows| && i != n ==> key(rows[i]) != key(row) by {
        forall i | 0 <= i < |rows| && i != n ensures key(rows[i]) != key(row) {
          if i < n { assert others[i] == rows[i]; } else { assert others[i - 1] == rows[i]; }
        }
      }
      Saved(rows[n := row])
  }

  function MemberKey(m: Member): string { m.inchurchId }
  function InterestKey(i: MemberInterest): (nat, nat) { (i.member, i.interestArea) }
  function AttendanceKey(a: AttendanceRecord): (nat, string, Date) { (a.member, a.eventName, a.eventDate) }

  /** The three tables with a uniqueness rule. */
  datatype Database = Database(
    members: seq<Member>, interests: seq<MemberInterest>, attendances: seq<AttendanceRecord>)

  /** `inchurch_id` is unique among members, an interest names each
      (member, area) pair once, and a member has one attendance record per
      event name and date. */
  ghost predicate Consistent(db: Database)
  {
    && UniqueBy(db.members, MemberKey)
    && UniqueBy(db.interests, InterestKey)
    && UniqueBy(db.attendances, AttendanceKey)
  }

  /** Creating a member. */
  function AddMember(db: Database, m: Member): (r: Option<Database>)
    ensures r.None? <==> exists i :: 0 <= i < |db.members| && db.members[i].inchurchId == m.inchurchId
    ensures r.Some? ==> r.value == db.(members := db.members + [m])
    ensures Consistent(db) && r.Some? ==> Consistent(r.value)
  {
    match Insert(db.members, m, MemberKey)
    case IntegrityError => None
    case Saved(rows) => Some(db.(members := rows))
  }

  /** Saving changes to the member at position `n`. */
  function SaveMember(db: Database, n: nat, m: Member): (r: Option<Database>)
    requires n < |db.members|
    ensures r.None? <==> exists i :: 0 <= i < |db.members| && i != n && db.members[i].inchurchId == m.inchurchId
    ensures r.Some? ==> r.value == db.(members := db.members[n := m])
    ensures Consistent(db) && r.Some? ==> Consistent(r.value)
  {
    match Update(db.members, n, m, MemberKey)
    case IntegrityError => None
    case Saved(rows) => Some(db.(members := rows))
  }

  /** Recording a member's interest in an area. */
  function AddInterest(db: Database, i: MemberInterest): (r: Option<Database>)
    ensures r.None? <==> exists k :: 0 <= k < |db.interests| &&
                           db.interests[k].member == i.member && db.interests[k].interestArea == i.interestArea
    ensures r.Some? ==> r.value == db.(interests := db.interests + [i])
    ensures Consistent(db) && r.Some? ==> Consistent(r.value)
  {
    match Insert(db.interests, i, InterestKey)
    case IntegrityError => None
    case Saved(rows) => Some(db.(interests := rows))
  }

  /** Recording an attendance. */
  function RecordAttendance(db: Database, a: AttendanceRecord): (r: Option<Database>)
    ensures r.None? <==> exists k :: 0 <= k < |db.attendances| &&
                           db.attendances[k].member == a.member && db.attendances[k].eventName == a.eventName &&
                           db.attendances[k].eventDate == a.eventDate
    ensures r.Some? ==> r.value == db.(attendances := db.attendances + [a])
    ensures Consistent(db) && r.Some? ==> Consistent(r.value)
  {
    match Insert(db.attendances, a, AttendanceKey)
    case IntegrityError => None
    case Saved(rows) => Some(db.(attendances := rows))
  }
}
