/** The helpers of the Ampeli API service that shape member data for the
    API and read errors out of its responses. */
module MemberData {
  import opened Calendar
  import opened Values
  import AuthService

  /** (API key, form key, default) of every field `format_member_data_for_api`
      copies without change. */
  const CopiedFields: seq<(string, string, Field)> := [
    ("fullName", "full_name", Str("")),
    ("birthDate", "birth_date", Str("")),
    ("gender", "gender", Str("")),
    ("maritalStatus", "marital_status", Str("")),
    ("email", "email", Str("")),
    ("phone", "phone", Str("")),
    ("churchAttendanceTime", "church_attendance_time", Str("")),
    ("previousChurches", "previous_churches", Str("")),
    ("howFoundChurch", "church_discovery", Str("")),
    ("previousParticipation", "previous_participation", Str("")),
    ("interestAreas", "volunteer_areas", Str("")),
    ("skillsGifts", "gifts_aptitudes", Str("")),
    ("volunteerArea", "volunteer_areas", Str("")),
    ("eventPreference", "event_preference", Str("")),
    ("interestsIn", "community_interests", Str("")),
    ("churchSearch", "seeking_in_church", Str("")),
    ("openToNewGroups", "open_to_new_groups", Bool(false)),
    ("groupPreference", "group_preferences", Str("")),
    ("faithStage", "faith_stage", Str("")),
    ("pastoralSupportInterest", "pastoral_care_interest", Bool(false)),
    ("faithDifficulties", "faith_challenges", Str(""))
  ]

  /** Row `i` of the table names a field no later row names again, and
      neither `user` nor `availableDaysTimes`. */
  ghost predicate Unrepeated(fields: seq<(string, string, Field)>, i: int)
    requires 0 <= i < |fields|
  {
    && (forall j :: i < j < |fields| ==> fields[j].0 != fields[i].0)
    && fields[i].0 != "user" && fields[i].0 != "availableDaysTimes"
  }

  // The table's names checked in four runs of rows, each a proof of its own.
  lemma CopiedFieldsUnrepeatedFirst(i: int)
    requires 0 <= i < 3
    ensures Unrepeated(CopiedFields, i)
  {
  }

  lemma CopiedFieldsUnrepeatedSecond(i: int)
    requires 3 <= i < 6
    ensures Unrepeated(CopiedFields, i)
  {
  }

  lemma CopiedFieldsUnrepeatedThird(i: int)
    requires 6 <= i < 10
    ensures Unrepeated(CopiedFields, i)
  {
  }

  lemma CopiedFieldsUnrepeatedLast(i: int)
    requires 10 <= i < |CopiedFields|
    ensures Unrepeated(CopiedFields, i)
  {
  }

  lemma CopiedFieldUnrepeated(i: int)
    requires 0 <= i < |CopiedFields|
    ensures Unrepeated(CopiedFields, i)
  {
    if i < 3 {
      CopiedFieldsUnrepeatedFirst(i);
    } else if i < 6 {
      CopiedFieldsUnrepeatedSecond(i);
    } else if i < 10 {
      CopiedFieldsUnrepeatedThird(i);
    } else {
      CopiedFieldsUnrepeatedLast(i);
    }
  }

  /** The API names of a field table. */
  function ApiNames(fields: seq<(string, string, Field)>): set<string>
  {
    set i | 0 <= i < |fields| :: fields[i].0
  }

  /** The fields of a table, each under its API name with its form value. */
  function CopyFields(form: map<string, Field>, fields: seq<(string, string, Field)>): (r: map<string, Value>)
    ensures r.Keys == ApiNames(fields)
    decreases |fields|
  {
    if fields == [] then map[]
    else
      var init, last := fields[..|fields| - 1], fields[|fields| - 1];
      var r := CopyFields(form, init)[last.0 := Atom(Get(form, last.1, last.2))];
      assert ApiNames(fields) == ApiNames(init) + {last.0} by {
        assert forall i :: 0 <= i < |init| ==> init[i] == fields[i];
      }
      r
  }

  /** A field whose API name is not repeated later in the table keeps its
      form value in the result. */
  lemma {:induction false} CopyFieldsLookup(form: map<string, Field>, fields: seq<(string, string, Field)>, i: int)
    requires 0 <= i < |fields|
    requires forall j :: i < j < |fields| ==> fields[j].0 != fields[i].0
    ensures fields[i].0 in CopyFields(form, fields)
    ensures CopyFields(form, fields)[fields[i].0] == Atom(Get(form, fields[i].1, fields[i].2))
    decreases |fields|
  {
    if i < |fields| - 1 {
      var init := fields[..|fields| - 1];
      CopyFieldsLookup(form, init, i);
    }
  }

  /** `format_member_data_for_api(form_data, user_id)`: the form's fields under
      the API's names, the user as `{"id": user_id}`, and the available days
      and times joined with `" - "`. */
  function FormatMemberDataForApi(form: map<string, Field>, userId: int): (r: map<string, Value>)
    ensures "user" in r && r["user"] == Dict(map["id" := Atom(Int(userId))])
    ensures "availableDaysTimes" in r
    ensures r["availableDaysTimes"] ==
              StrValue(Display(Get(form, "available_days", Str(""))) + " - "
                   + Display(Get(form, "available_times", Str(""))))
  {
    var daysTimes := Display(Get(form, "available_days", Str(""))) + " - "
                     + Display(Get(form, "available_times", Str("")));
    CopyFields(form, CopiedFields)["user" := Dict(map["id" := Atom(Int(userId))])]
                                  ["availableDaysTimes" := StrValue(daysTimes)]
  }

  /** The formatted data has exactly the table's API names, `user` and
      `availableDaysTimes`. */
  lemma FormattedKeys(form: map<string, Field>, userId: int)
    ensures FormatMemberDataForApi(form, userId).Keys
            == ApiNames(CopiedFields) + {"user", "availableDaysTimes"}
  {
  }

  /** The copied field at row `i` reaches the API under its new name with
      its form value, or with the row's default when the form lacks it. */
  lemma CopiedFieldRenamed(form: map<string, Field>, userId: int, i: int)
    requires 0 <= i < |CopiedFields|
    ensures var r := FormatMemberDataForApi(form, userId);
      CopiedFields[i].0 in r && r[CopiedFields[i].0] == Atom(Get(form, CopiedFields[i].1, CopiedFields[i].2))
  {
    var c := CopyFields(form, CopiedFields);
    var r := FormatMemberDataForApi(form, userId);
    assert r == c["user" := r["user"]]["availableDaysTimes" := r["availableDaysTimes"]];
    CopiedFieldUnrepeated(i);
    CopyFieldsLookup(form, CopiedFields, i);
  }

  /** The volunteer areas are sent twice, as interests and as volunteer area. */
  lemma VolunteerAreasSentTwice(form: map<string, Field>, userId: int)
    ensures var r := FormatMemberDataForApi(form, userId);
      && "interestAreas" in r && "volunteerArea" in r
      && r["interestAreas"] == r["volunteerArea"] == Atom(Get(form, "volunteer_areas", Str("")))
  {
    assert CopiedFields[10] == ("interestAreas", "volunteer_areas", Str(""));
    assert CopiedFields[12] == ("volunteerArea", "volunteer_areas", Str(""));
    CopiedFieldRenamed(form, userId, 10);
    CopiedFieldRenamed(form, userId, 12);
  }

  const RequiredMemberFields: seq<string> := ["fullName", "email"]

  /** The `for field in required_fields` loop: it returns early at the first
      falsy field, so it passes exactly when every listed field is truthy. */
  predicate AllGiven(data: map<string, Value>, fields: seq<string>)
  {
    forall i :: 0 <= i < |fields| ==> Truthy(Get(data, fields[i], NoneValue))
  }

  /** `'@' in email and '.' in email` on a value: characters of a string,
      keys of a dictionary. */
  predicate EmailValueShaped(v: Value)
  {
    match v
    case Atom(Str(s)) => AuthService.EmailShaped(s)
    case Dict(m) => "@" in m && "." in m
    case Atom(_) => false
  }

  /** `validate_member_data(member_data)`. `None` stands for the TypeError
      that `'@' in email` raises when the email is a truthy number, bool or
      date. */
  function ValidateMemberData(data: map<string, Value>): (r: Option<bool>)
    ensures var name, email := Get(data, "fullName", NoneValue), Get(data, "email", NoneValue);
      && (r == Some(true) <==> Truthy(name) && Truthy(email) && EmailValueShaped(email))
      && (r.None? <==> Truthy(name) && Truthy(email) && email.Atom? && !email.field.Str?)
  {
    assert RequiredMemberFields[0] == "fullName" && RequiredMemberFields[1] == "email";
    if !AllGiven(data, RequiredMemberFields) then Some(false)
    else
      match Get(data, "email", StrValue(""))
      case Atom(Str(s)) => Some(AuthService.EmailShaped(s))
      case Dict(m) => Some("@" in m && "." in m)
      case Atom(_) => None
  }

  /** What the validator says about data the formatter built: it accepts it
      exactly when the form had a truthy full name and a non-empty email
      string with `@` and `.`, and it raises exactly when the full name is
      truthy and the email is a truthy value that is not a string. */
  lemma ValidateFormatted(form: map<string, Field>, userId: int)
    ensures var name, email := Get(form, "full_name", Str("")), Get(form, "email", Str(""));
      var v := ValidateMemberData(FormatMemberDataForApi(form, userId));
      && (v == Some(true) <==> Truthy(Atom(name)) && email.Str? && email.s != "" && AuthService.EmailShaped(email.s))
      && (v.None? <==> Truthy(Atom(name)) && Truthy(Atom(email)) && !email.Str?)
  {
    var r := FormatMemberDataForApi(form, userId);
    assert CopiedFields[0] == ("fullName", "full_name", Str(""));
    assert CopiedFields[4] == ("email", "email", Str(""));
    CopiedFieldRenamed(form, userId, 0);
    CopiedFieldRenamed(form, userId, 4);
    assert Get(r, "fullName", NoneValue) == Atom(Get(form, "full_name", Str("")));
    assert Get(r, "email", NoneValue) == Atom(Get(form, "email", Str("")));
  }

  /** `format_date_for_api(date_obj)`. `None` stands for the AttributeError
      `strftime` raises on a truthy value that is neither a str nor a date. */
  function FormatDateForApi(v: Value): (r: Option<string>)
    ensures !Truthy(v) ==> r == Some("")
    ensures v.Atom? && v.field.Str? ==> r == Some(v.field.s)
    ensures v.Atom? && v.field.Day? ==> r == Some(IsoFormat(v.field.date))
    ensures r.None? <==> Truthy(v) && !(v.Atom? && (v.field.Str? || v.field.Day?))
  {
    if !Truthy(v) then Some("")
    else
      match v
      case Atom(Str(s)) => Some(s)
      case Atom(Day(d)) => Some(IsoFormat(d))
      case _ => None
  }

  /** Formatting what the formatter returned changes nothing. */
  lemma FormatDateIdempotent(v: Value)
    requires FormatDateForApi(v).Some?
    ensures FormatDateForApi(StrValue(FormatDateForApi(v).value)) == FormatDateForApi(v)
  {
  }

  /** `parse_api_response_error(response_data)`: a dictionary's `message`,
      else its `error`, else a fixed text; `str()` of anything else. */
  function ParseApiResponseError(v: Value): (r: Value)
    ensures v.Dict? && "message" in v.entries ==> r == v.entries["message"]
    ensures v.Dict? && "message" !in v.entries && "error" in v.entries ==> r == v.entries["error"]
    ensures v.Dict? && "message" !in v.entries && "error" !in v.entries ==> r == StrValue("Erro desconhecido")
    ensures v.Atom? ==> r == StrValue(Display(v.field))
  {
    match v
    case Dict(m) => Get(m, "message", Get(m, "error", StrValue("Erro desconhecido")))
    case Atom(f) => StrValue(Display(f))
  }

  /** Every dictionary the authentication operations return carries its
      message where the error parser looks first. */
  lemma ParseErrorReadsResult(r: AuthService.AuthResult)
    ensures ParseApiResponseError(r.AsDict()) == StrValue(r.message)
  {
  }
}
