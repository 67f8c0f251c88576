/**
 * The admin dashboard: the cached member list with its fetch effect and
 * search filter, the per-member card (edit the end date, delete with a
 * confirmation), and the intake form that registers a new member.
 */
module AdminDashboard {
  import opened Wrappers
  import opened Text
  import opened Dates
  import opened Backend
  import opened Storage
  import ProtectedRoute

  // --------------------------------------------------------------------
  // Search filter
  // --------------------------------------------------------------------

  /** The search predicate: the lower-cased query in the lower-cased name, or the raw query in the mobile number. */
  predicate Matches(m: Member, query: string)
  {
    Includes(Lower(m.name), Lower(query)) || Includes(m.mobileNumber, query)
  }

  /** `users.filter(u => Matches(u, search))`. */
  function FilterMembers(users: seq<Member>, query: string): (r: seq<Member>)
    ensures |r| <= |users|
    ensures forall m :: m in r <==> m in users && Matches(m, query)
    ensures forall m :: multiset(r)[m] == if Matches(m, query) then multiset(users)[m] else 0
    decreases |users|
  {
    if users == [] then []
    else
      var rest := FilterMembers(users[1..], query);
      assert users == [users[0]] + users[1..];
      assert multiset(users) == multiset([users[0]]) + multiset(users[1..]);
      if Matches(users[0], query) then
        assert multiset([users[0]] + rest) == multiset([users[0]]) + multiset(rest);
        [users[0]] + rest
      else rest
  }

  /** `a` is `b` with some elements left out, the rest in their order. */
  predicate IsSubsequence<T(==)>(a: seq<T>, b: seq<T>)
    decreases |b|
  {
    a == [] || (b != [] && ((a[0] == b[0] && IsSubsequence(a[1..], b[1..])) || IsSubsequence(a, b[1..])))
  }

  /** The search predicate spelled out: a case-insensitive occurrence in the name, or an exact one in the mobile number. */
  lemma MatchesIff(m: Member, query: string)
    ensures Matches(m, query) <==>
      (exists i :: OccursAt(Lower(m.name), Lower(query), i)) || (exists j :: OccursAt(m.mobileNumber, query, j))
  {
    IncludesIff(Lower(m.name), Lower(query));
    IncludesIff(m.mobileNumber, query);
  }

  /** The filter keeps the members in the order the backend returned them. */
  lemma {:induction false} FilterIsSubsequence(users: seq<Member>, query: string)
    ensures IsSubsequence(FilterMembers(users, query), users)
    decreases |users|
  {
    if users != [] {
      FilterIsSubsequence(users[1..], query);
      var r := FilterMembers(users, query);
      if Matches(users[0], query) {
        assert r[0] == users[0] && r[1..] == FilterMembers(users[1..], query);
      }
    }
  }

  /** The empty query keeps every member. */
  lemma {:induction false} FilterEmptyQuery(users: seq<Member>)
    ensures FilterMembers(users, "") == users
    decreases |users|
  {
    if users != [] {
      assert Lower("") == "";
      assert Matches(users[0], "");
      FilterEmptyQuery(users[1..]);
      assert users == [users[0]] + users[1..];
    }
  }

  /** Filtering twice with the same query is filtering once. */
  lemma {:induction false} FilterIdempotent(users: seq<Member>, query: string)
    ensures FilterMembers(FilterMembers(users, query), query) == FilterMembers(users, query)
    decreases |users|
  {
    if users != [] {
      FilterIdempotent(users[1..], query);
      var rest := FilterMembers(users[1..], query);
      if Matches(users[0], query) {
        assert ([users[0]] + rest)[1..] == rest;
      }
    }
  }

  /** Queries that differ only in the case of ASCII letters match the same names. */
  lemma NameMatchIgnoresQueryCase(m: Member, q1: string, q2: string)
    requires SameUpToAsciiCase(q1, q2)
    ensures Includes(Lower(m.name), Lower(q1)) == Includes(Lower(m.name), Lower(q2))
  {
    LowerEqIff(q1, q2);
  }

  /** Likewise, names that differ only in case are matched by the same queries. */
  lemma NameMatchIgnoresNameCase(m1: Member, m2: Member, query: string)
    requires SameUpToAsciiCase(m1.name, m2.name)
    ensures Includes(Lower(m1.name), Lower(query)) == Includes(Lower(m2.name), Lower(query))
  {
    LowerEqIff(m1.name, m2.name);
  }

  // --------------------------------------------------------------------
  // Dashboard: member list, refresh effect, logout
  // --------------------------------------------------------------------

  /** What the member grid shows. */
  datatype ListView = Skeleton | NoMatches(query: string) | Cards(members: seq<Member>)

  class Dashboard {
    var users: seq<Member>
    var search: string
    var showCreate: bool
    /** The dependency of the fetch effect; every flip re-runs the fetch. */
    var refresh: bool
    var loading: bool
    /** The requests this page has sent, oldest first. */
    var sent: seq<Request>
    const store: LocalStorage

    /** Mounting: initial state, then the effect's first run. */
    constructor (store: LocalStorage)
      ensures users == [] && search == "" && !showCreate && !refresh
      ensures loading && sent == [ListMembers]
      ensures this.store == store
    {
      users, search, showCreate, refresh := [], "", false, false;
      loading := true;
      sent := [ListMembers];
      this.store := store;
    }

    /** The grid: the skeleton while loading, else the filtered members or the "no members found" note. */
    function Listing(): (v: ListView)
      reads this
      ensures v.Skeleton? <==> loading
      ensures v.Cards? ==> v.members == FilterMembers(users, search) && v.members != []
      ensures v.NoMatches? ==> v.query == search && forall m :: m in users ==> !Matches(m, search)
    {
      if loading then Skeleton
      else
        var shown := FilterMembers(users, search);
        if shown == [] then NoMatches(search) else Cards(shown)
    }

    /** One run of the fetch effect: the loader goes up and the list request is sent. */
    method RunFetchEffect()
      modifies this
      ensures loading && sent == old(sent) + [ListMembers]
      ensures users == old(users) && search == old(search)
      ensures showCreate == old(showCreate) && refresh == old(refresh)
    {
      loading := true;
      sent := sent + [ListMembers];
    }

    /**
     * The list request resolves: on success the list is replaced wholesale,
     * on failure it is kept; the loader comes down either way (the 300 ms
     * delay after a success is taken as immediate).
     */
    method CompleteFetch(res: Response<seq<Member>>)
      requires loading
      modifies this
      ensures !loading
      ensures res.Ok? ==> users == res.data
      ensures res.Failed? ==> users == old(users)
      ensures search == old(search) && showCreate == old(showCreate)
      ensures refresh == old(refresh) && sent == old(sent)
    {
      match res
      case Ok(data) =>
        users := data;
        loading := false;
      case Failed =>
        loading := false;
    }

    /** `onUpdate` of a card, `setRefresh(!refresh)`: the flip re-runs the fetch effect. */
    method FlipRefresh()
      modifies this
      ensures refresh == !old(refresh)
      ensures loading && sent == old(sent) + [ListMembers]
      ensures users == old(users) && search == old(search) && showCreate == old(showCreate)
    {
      refresh := !refresh;
      RunFetchEffect();
    }

    /** `onSuccess` of the intake form: flip the refresh flag and hide the form. */
    method CreateSucceeded()
      modifies this
      ensures refresh == !old(refresh) && !showCreate
      ensures loading && sent == old(sent) + [ListMembers]
      ensures users == old(users) && search == old(search)
    {
      refresh := !refresh;
      showCreate := false;
      RunFetchEffect();
    }

    /** The search input's `onChange`. */
    method SetSearch(query: string)
      modifies this
      ensures search == query
      ensures users == old(users) && loading == old(loading) && showCreate == old(showCreate)
      ensures refresh == old(refresh) && sent == old(sent)
    {
      search := query;
    }

    /** The "Add Member" / "Cancel" button. */
    method ToggleCreate()
      modifies this
      ensures showCreate == !old(showCreate)
      ensures users == old(users) && loading == old(loading) && search == old(search)
      ensures refresh == old(refresh) && sent == old(sent)
    {
      showCreate := !showCreate;
    }

    /** `handleLogout`: remove the session token and go to the home page. */
    method Logout() returns (nav: string)
      modifies store
      ensures store.entries == Apply(old(store.entries), RemoveItem(ProtectedRoute.TokenKey))
      ensures !ProtectedRoute.IsAuthenticated(store.entries)
      ensures nav == "/"
    {
      store.RemoveItem(ProtectedRoute.TokenKey);
      nav := "/";
    }
  }

  // --------------------------------------------------------------------
  // Member card: edit the end date, delete with confirmation
  // --------------------------------------------------------------------

  /** The card's draft end date: none, a picked day, or a JavaScript Invalid Date. */
  datatype DraftDate = Empty | Picked(date: Date) | Unparsable

  /** The seed `user.subscription_end_date ? new Date(user.subscription_end_date) : null`. */
  function ParseDraft(s: string): (d: DraftDate)
    ensures d.Empty? <==> s == ""
    ensures d.Picked? ==> FormatIso(d.date) == s
  {
    if s == "" then Empty
    else match ParseIso(s)
      case Some(date) => FormatParse(s); Picked(date)
      case None => Unparsable
  }

  /**
   * The `subscription_end_date` that `handleSave` sends: "" for no draft, the
   * `yyyy-MM-dd` text of a picked day, and None where `format` throws on an
   * invalid date before any request is made.
   */
  function SaveBody(draft: DraftDate): (r: Option<string>)
    ensures r.None? <==> draft.Unparsable?
    ensures r == Some("") <==> draft.Empty?
    ensures draft.Picked? ==> r.Some? && ParseIso(r.value) == Some(draft.date)
  {
    match draft
    case Empty => Some("")
    case Picked(d) => ParseFormat(d); Some(FormatIso(d))
    case Unparsable => None
  }

  /** Saving an untouched draft sends back the stored end date when it is empty or in `yyyy-MM-dd` form. */
  lemma SeededDraftResends(s: string)
    requires s == "" || ParseIso(s).Some?
    ensures SaveBody(ParseDraft(s)) == Some(s)
  {
    if s != "" {
      FormatParse(s);
    }
  }

  class MemberCard {
    const user: Member
    const parent: Dashboard
    var isEditing: bool
    var isSaving: bool
    var isDeleting: bool
    var subEnd: DraftDate
    /** The "Delete Member?" prompt is showing. */
    var confirming: bool
    /** The requests this card has sent, oldest first. */
    var sent: seq<Request>

    /** A save is only ever in flight from edit mode: "Cancel" is disabled while saving. */
    predicate Valid()
      reads this
    {
      isSaving ==> isEditing
    }

    /** A card is mounted for each listed member; the draft is seeded here and only here. */
    constructor (user: Member, parent: Dashboard)
      ensures this.user == user && this.parent == parent
      ensures !isEditing && !isSaving && !isDeleting && !confirming && sent == []
      ensures subEnd == ParseDraft(user.subscriptionEndDate)
      ensures Valid()
    {
      this.user, this.parent := user, parent;
      isEditing, isSaving, isDeleting, confirming := false, false, false, false;
      subEnd := ParseDraft(user.subscriptionEndDate);
      sent := [];
    }

    /** "Edit Access": enter edit mode with whatever draft is kept. */
    method StartEdit()
      requires Valid()
      modifies this
      ensures Valid()
      ensures isEditing
      ensures subEnd == old(subEnd) && isSaving == old(isSaving) && isDeleting == old(isDeleting)
      ensures confirming == old(confirming) && sent == old(sent)
    {
      isEditing := true;
    }

    /** "Cancel" (disabled while saving): leave edit mode; the draft is not reset. */
    method CancelEdit()
      requires Valid()
      modifies this
      ensures Valid()
      ensures isEditing == (old(isEditing) && old(isSaving))
      ensures subEnd == old(subEnd) && isSaving == old(isSaving) && isDeleting == old(isDeleting)
      ensures confirming == old(confirming) && sent == old(sent)
    {
      if !isSaving {
        isEditing := false;
      }
    }

    /** The date picker's `onSelect`: a day, or `undefined` when the day is unselected. */
    method PickEndDate(d: Option<Date>)
      requires Valid()
      modifies this
      ensures Valid()
      ensures subEnd == if d.Some? then Picked(d.value) else Empty
      ensures isEditing == old(isEditing) && isSaving == old(isSaving) && isDeleting == old(isDeleting)
      ensures confirming == old(confirming) && sent == old(sent)
    {
      subEnd := if d.Some? then Picked(d.value) else Empty;
    }

    /**
     * "Save" (shown only in edit mode, disabled while saving): `handleSave`
     * up to the awaited call. An invalid draft makes `format` throw inside
     * the `try`, so nothing is sent and `isSaving` is reset at once.
     */
    method Save()
      requires isEditing
      requires Valid()
      modifies this
      ensures Valid()
      ensures old(isSaving) || SaveBody(old(subEnd)).None? ==> isSaving == old(isSaving) && sent == old(sent)
      ensures !old(isSaving) && SaveBody(subEnd).Some? ==>
        isSaving && sent == old(sent) + [UpdateSubscription(user.id, SaveBody(subEnd).value)]
      ensures isEditing && subEnd == old(subEnd) && isDeleting == old(isDeleting) && confirming == old(confirming)
    {
      if isSaving {
        return;
      }
      var body := SaveBody(subEnd);
      if body.Some? {
        isSaving := true;
        sent := sent + [UpdateSubscription(user.id, body.value)];
      }
    }

    /** The update request resolves; `finally` clears `isSaving` in both outcomes. */
    method CompleteSave(res: Response<()>)
      requires isSaving
      requires Valid()
      modifies this, parent
      ensures Valid()
      ensures !isSaving
      ensures res.Ok? ==> (
        && !isEditing
        && parent.refresh == !old(parent.refresh) && parent.loading
        && parent.sent == old(parent.sent) + [ListMembers] && parent.users == old(parent.users))
      ensures res.Failed? ==> (
        && isEditing
        && parent.refresh == old(parent.refresh) && parent.loading == old(parent.loading)
        && parent.sent == old(parent.sent) && parent.users == old(parent.users))
      ensures subEnd == old(subEnd) && isDeleting == old(isDeleting) && confirming == old(confirming)
      ensures sent == old(sent) && parent.search == old(parent.search) && parent.showCreate == old(parent.showCreate)
    {
      if res.Ok? {
        isEditing := false;
        parent.FlipRefresh();
      }
      isSaving := false;
    }

    /** The trash button (shown outside edit mode, disabled while deleting): bring up the prompt. */
    method ClickDelete()
      requires !isEditing
      requires Valid()
      modifies this
      ensures Valid()
      ensures confirming == (old(confirming) || !isDeleting)
      ensures isEditing == old(isEditing) && isSaving == old(isSaving) && isDeleting == old(isDeleting)
      ensures subEnd == old(subEnd) && sent == old(sent)
    {
      if !isDeleting {
        confirming := true;
      }
    }

    /** The prompt's "Cancel": the prompt goes away and nothing else changes. */
    method CancelDelete()
      requires confirming
      requires Valid()
      modifies this
      ensures Valid()
      ensures !confirming
      ensures isEditing == old(isEditing) && isSaving == old(isSaving) && isDeleting == old(isDeleting)
      ensures subEnd == old(subEnd) && sent == old(sent)
    {
      confirming := false;
    }

    /** The prompt's "Delete": `performDelete` up to the awaited call; the only place a delete is sent. */
    method ConfirmDelete()
      requires confirming
      requires Valid()
      modifies this
      ensures Valid()
      ensures !confirming && isDeleting
      ensures sent == old(sent) + [DeleteMember(user.id)]
      ensures isEditing == old(isEditing) && isSaving == old(isSaving) && subEnd == old(subEnd)
    {
      confirming := false;
      isDeleting := true;
      sent := sent + [DeleteMember(user.id)];
    }

    /** The delete request resolves: success refreshes the list, failure clears `isDeleting`. */
    method CompleteDelete(res: Response<()>)
      requires isDeleting
      requires Valid()
      modifies this, parent
      ensures Valid()
      ensures res.Ok? ==> (
        && isDeleting
        && parent.refresh == !old(parent.refresh) && parent.loading
        && parent.sent == old(parent.sent) + [ListMembers] && parent.users == old(parent.users))
      ensures res.Failed? ==> (
        && !isDeleting
        && parent.refresh == old(parent.refresh) && parent.loading == old(parent.loading)
        && parent.sent == old(parent.sent) && parent.users == old(parent.users))
      ensures isEditing == old(isEditing) && isSaving == old(isSaving) && subEnd == old(subEnd)
      ensures confirming == old(confirming) && sent == old(sent)
      ensures parent.search == old(parent.search) && parent.showCreate == old(parent.showCreate)
    {
      if res.Ok? {
        parent.FlipRefresh();
      } else {
        isDeleting := false;
      }
    }
  }

  // --------------------------------------------------------------------
  // Intake form
  // --------------------------------------------------------------------

  /** The four text inputs; each carries the HTML `required` attribute. */
  function InitialFormData(): (f: map<string, string>)
    ensures f.Keys == {"name", "mobile_number", "location", "trainer_name"}
    ensures forall k :: k in f ==> f[k] == ""
  {
    map["name" := "", "mobile_number" := "", "location" := "", "trainer_name" := ""]
  }

  predicate Filled(formData: map<string, string>, key: string)
  {
    key in formData && formData[key] != ""
  }

  /** The browser's constraint validation: the form submits only with all four inputs non-empty. */
  predicate RequiredInputsFilled(formData: map<string, string>)
  {
    Filled(formData, "name") && Filled(formData, "mobile_number")
    && Filled(formData, "location") && Filled(formData, "trainer_name")
  }

  /** `d ? format(d, "yyyy-MM-dd") : ""`. */
  function FormatOptional(d: Option<Date>): (s: string)
    ensures s == "" <==> d.None?
    ensures d.Some? ==> ParseIso(s) == Some(d.value)
  {
    match d
    case None => ""
    case Some(x) => ParseFormat(x); FormatIso(x)
  }

  /** The keys `handleSubmit` adds after spreading `formData`. */
  const ComposedKeys: set<string> := {"joining_date", "subscription_start_date", "subscription_end_date", "is_paid"}

  /** The added keys are pairwise distinct, and none of them is the `name` input; their lengths differ. */
  lemma ComposedKeysDistinct()
    ensures "joining_date" != "subscription_start_date" && "joining_date" != "subscription_end_date"
    ensures "joining_date" != "is_paid" && "subscription_start_date" != "subscription_end_date"
    ensures "subscription_start_date" != "is_paid" && "subscription_end_date" != "is_paid"
    ensures "name" !in ComposedKeys
  {
    assert |"joining_date"| == 12 && |"subscription_start_date"| == 23;
    assert |"subscription_end_date"| == 21 && |"is_paid"| == 7 && |"name"| == 4;
  }

  /** The spread `...formData`: every input's text, as a JSON string. */
  function TextFields(formData: map<string, string>): (r: Record)
    ensures r.Keys == formData.Keys
    ensures forall k :: k in formData ==> r[k] == Text(formData[k])
  {
    map k | k in formData :: Text(formData[k])
  }

  /** `{...formData, joining_date, subscription_start_date, subscription_end_date, is_paid: true}`. */
  function ComposeRecord(formData: map<string, string>, joinDate: Option<Date>, subStart: Option<Date>, subEnd: Option<Date>): (r: Record)
  {
    TextFields(formData)
      ["joining_date" := Text(FormatOptional(joinDate))]
      ["subscription_start_date" := Text(FormatOptional(subStart))]
      ["subscription_end_date" := Text(FormatOptional(subEnd))]
      ["is_paid" := Flag(true)]
  }

  /** The composed record has the form's keys plus the four added ones. */
  lemma ComposedRecordKeys(formData: map<string, string>, joinDate: Option<Date>, subStart: Option<Date>, subEnd: Option<Date>)
    ensures ComposeRecord(formData, joinDate, subStart, subEnd).Keys == formData.Keys + ComposedKeys
  {
  }

  /** The added fields: `is_paid` is true, and each date holds the formatted pick or "". */
  lemma ComposedAddedFields(formData: map<string, string>, joinDate: Option<Date>, subStart: Option<Date>, subEnd: Option<Date>)
    ensures var r := ComposeRecord(formData, joinDate, subStart, subEnd);
      && "is_paid" in r && r["is_paid"] == Flag(true)
      && "joining_date" in r && r["joining_date"] == Text(FormatOptional(joinDate))
      && "subscription_start_date" in r && r["subscription_start_date"] == Text(FormatOptional(subStart))
      && "subscription_end_date" in r && r["subscription_end_date"] == Text(FormatOptional(subEnd))
  {
    AddedFieldsRead(TextFields(formData), Text(FormatOptional(joinDate)), Text(FormatOptional(subStart)),
      Text(FormatOptional(subEnd)), Flag(true));
  }

  /** Reading back the four keys `handleSubmit` writes over the spread, for any values. */
  lemma AddedFieldsRead(t: Record, join: Field, start: Field, end: Field, paid: Field)
    ensures var r := t["joining_date" := join]["subscription_start_date" := start]["subscription_end_date" := end]["is_paid" := paid];
      && "is_paid" in r && r["is_paid"] == paid
      && "joining_date" in r && r["joining_date"] == join
      && "subscription_start_date" in r && r["subscription_start_date"] == start
      && "subscription_end_date" in r && r["subscription_end_date"] == end
  {
    ComposedKeysDistinct();
  }

  /** Every input other than the added keys keeps its text. */
  lemma ComposedInputFields(formData: map<string, string>, joinDate: Option<Date>, subStart: Option<Date>, subEnd: Option<Date>)
    ensures var r := ComposeRecord(formData, joinDate, subStart, subEnd);
      forall k :: k in formData && k !in ComposedKeys ==> k in r && r[k] == Text(formData[k])
  {
  }

  /** JavaScript truthiness of `r[key]`: absent, `""` and `false` are falsy. */
  predicate Truthy(r: Record, key: string)
  {
    key in r && r[key] != Text("") && r[key] != Flag(false)
  }

  /** The check `!finalData.joining_date || !finalData.subscription_end_date`. */
  predicate DatesMissing(r: Record)
  {
    !Truthy(r, "joining_date") || !Truthy(r, "subscription_end_date")
  }

  /** On any record whose date fields hold texts, the date check blocks exactly when one of them is empty. */
  lemma DatesMissingOfTexts(r: Record, join: string, end: string)
    requires "joining_date" in r && r["joining_date"] == Text(join)
    requires "subscription_end_date" in r && r["subscription_end_date"] == Text(end)
    ensures DatesMissing(r) <==> join == "" || end == ""
  {
  }

  /** The record-level check blocks exactly when a joining or end date was not picked; the start date is free. */
  lemma DatesMissingIff(formData: map<string, string>, joinDate: Option<Date>, subStart: Option<Date>, subEnd: Option<Date>)
    ensures DatesMissing(ComposeRecord(formData, joinDate, subStart, subEnd)) <==> joinDate.None? || subEnd.None?
  {
    ComposedAddedFields(formData, joinDate, subStart, subEnd);
    DatesMissingOfTexts(ComposeRecord(formData, joinDate, subStart, subEnd), FormatOptional(joinDate), FormatOptional(subEnd));
  }

  /** Each picked date in a composed record reads back as the picked day. */
  lemma ComposedDatesRoundTrip(formData: map<string, string>, joinDate: Date, subStart: Option<Date>, subEnd: Date)
    ensures var r := ComposeRecord(formData, Some(joinDate), subStart, Some(subEnd));
      ParseIso(r["joining_date"].text) == Some(joinDate) && ParseIso(r["subscription_end_date"].text) == Some(subEnd)
  {
    ComposedAddedFields(formData, Some(joinDate), subStart, Some(subEnd));
  }

  /** The registration example: Jane Doe joining 2024-02-01 with a plan to 2024-08-01. */
  lemma ComposeExample(formData: map<string, string>, join: Date, end: Date)
    requires "name" in formData && formData["name"] == "Jane Doe"
    requires join.year == 2024 && join.month == 2 && join.day == 1
    requires end.year == 2024 && end.month == 8 && end.day == 1
    ensures var r := ComposeRecord(formData, Some(join), None, Some(end));
      && r["is_paid"] == Flag(true)
      && r["joining_date"] == Text("2024-02-01")
      && r["subscription_end_date"] == Text("2024-08-01")
      && r["subscription_start_date"] == Text("")
      && r["name"] == Text("Jane Doe")
      && !DatesMissing(r)
  {
    FormatFebruaryFirst(join);
    FormatAugustFirst(end);
    ComposedKeysDistinct();
    ComposedAddedFields(formData, Some(join), None, Some(end));
    ComposedInputFields(formData, Some(join), None, Some(end));
  }

  /** How a press of "Confirm Registration" ends. */
  datatype SubmitOutcome = BlockedByBrowser | DatesNotSelected | Sent

  class IntakeForm {
    var formData: map<string, string>
    var joinDate: Option<Date>
    var subStart: Option<Date>
    var subEnd: Option<Date>
    /** The requests this form has sent, oldest first. */
    var sent: seq<Request>
    const parent: Dashboard

    constructor (parent: Dashboard)
      ensures formData == InitialFormData()
      ensures joinDate == None && subStart == None && subEnd == None && sent == []
      ensures this.parent == parent
    {
      formData := InitialFormData();
      joinDate, subStart, subEnd := None, None, None;
      sent := [];
      this.parent := parent;
    }

    /** `handleChange`: rewrite the one named field and keep the others. */
    method HandleChange(name: string, value: string)
      modifies this
      ensures formData == old(formData)[name := value]
      ensures joinDate == old(joinDate) && subStart == old(subStart) && subEnd == old(subEnd)
      ensures sent == old(sent)
    {
      formData := formData[name := value];
    }

    /** The three date pickers' `onSelect`. */
    method SelectJoinDate(d: Option<Date>)
      modifies this
      ensures joinDate == d && subStart == old(subStart) && subEnd == old(subEnd)
      ensures formData == old(formData) && sent == old(sent)
    {
      joinDate := d;
    }

    method SelectStartDate(d: Option<Date>)
      modifies this
      ensures subStart == d && joinDate == old(joinDate) && subEnd == old(subEnd)
      ensures formData == old(formData) && sent == old(sent)
    {
      subStart := d;
    }

    method SelectEndDate(d: Option<Date>)
      modifies this
      ensures subEnd == d && joinDate == old(joinDate) && subStart == old(subStart)
      ensures formData == old(formData) && sent == old(sent)
    {
      subEnd := d;
    }

    /** The submit button: the browser's `required` check runs before `handleSubmit`. */
    method Submit() returns (outcome: SubmitOutcome)
      modifies this
      ensures !RequiredInputsFilled(formData) ==> outcome == BlockedByBrowser && sent == old(sent)
      ensures RequiredInputsFilled(formData) && (joinDate.None? || subEnd.None?) ==> outcome == DatesNotSelected
      ensures RequiredInputsFilled(formData) && joinDate.Some? && subEnd.Some? ==> outcome == Sent
      ensures outcome == Sent ==> sent == old(sent) + [CreateMember(ComposeRecord(formData, joinDate, subStart, subEnd))]
      ensures outcome != Sent ==> sent == old(sent)
      ensures formData == old(formData) && joinDate == old(joinDate)
      ensures subStart == old(subStart) && subEnd == old(subEnd)
    {
      if !RequiredInputsFilled(formData) {
        return BlockedByBrowser;
      }
      outcome := HandleSubmit();
    }

    /**
     * `handleSubmit` up to the awaited call: compose the record, and stop
     * before any request when a joining or end date is missing.
     */
    method HandleSubmit() returns (outcome: SubmitOutcome)
      modifies this
      ensures outcome != BlockedByBrowser
      ensures outcome == DatesNotSelected <==> joinDate.None? || subEnd.None?
      ensures outcome == Sent ==> sent == old(sent) + [CreateMember(ComposeRecord(formData, joinDate, subStart, subEnd))]
      ensures outcome != Sent ==> sent == old(sent)
      ensures formData == old(formData) && joinDate == old(joinDate)
      ensures subStart == old(subStart) && subEnd == old(subEnd)
    {
      var finalData := ComposeRecord(formData, joinDate, subStart, subEnd);
      ComposedKeysDistinct();
      DatesMissingIff(formData, joinDate, subStart, subEnd);
      if DatesMissing(finalData) {
        return DatesNotSelected;
      }
      sent := sent + [CreateMember(finalData)];
      return Sent;
    }

    /** The create request resolves: success refreshes the list and hides the form; failure keeps everything. */
    method CompleteSubmit(res: Response<()>)
      modifies parent
      ensures res.Ok? ==> (
        && parent.refresh == !old(parent.refresh) && !parent.showCreate
        && parent.loading && parent.sent == old(parent.sent) + [ListMembers])
      ensures res.Failed? ==> (
        && parent.refresh == old(parent.refresh) && parent.showCreate == old(parent.showCreate)
        && parent.loading == old(parent.loading) && parent.sent == old(parent.sent))
      ensures parent.users == old(parent.users) && parent.search == old(parent.search)
      ensures formData == old(formData) && joinDate == old(joinDate) && subEnd == old(subEnd) && sent == old(sent)
    {
      if res.Ok? {
        parent.CreateSucceeded();
      }
    }
  }
}
