/**
 * The member portal: lookup by mobile number, the member's status block,
 * logout, and the body-weight update with its short acknowledgement.
 */
module UserPortal {
  import opened Wrappers
  import opened Text
  import opened Dates
  import opened Expiry
  import opened Backend

  /** What the portal renders. */
  datatype Screen =
    | Loader
    | LoginScreen
    | Home(greeting: string, expired: bool, remainingDays: nat, planEnds: string)

  /**
   * The render, in the source's order: the loader while loading, else the
   * login screen without a member, else the member's home. `endMillis` is
   * `new Date(user.subscription_end_date)` and `nowMillis` is `new Date()`.
   */
  function Render(loading: bool, user: Option<Member>, endMillis: int, nowMillis: int): (s: Screen)
    ensures s.Loader? <==> loading
    ensures s.LoginScreen? <==> !loading && user.None?
    ensures s.Home? ==>
      && user.Some?
      && s.greeting <= user.value.name && ' ' !in s.greeting
      && (s.greeting == user.value.name || user.value.name[|s.greeting|] == ' ')
      && (s.expired <==> endMillis <= nowMillis - MillisPerDay)
      && s.remainingDays == DisplayDays(endMillis, nowMillis)
      && s.planEnds == SliceFrom(user.value.subscriptionEndDate, 5)
  {
    if loading then Loader
    else match user
      case None => LoginScreen
      case Some(m) =>
        PortalExpiredIff(endMillis, nowMillis);
        Home(FirstWord(m.name), PortalExpired(endMillis, nowMillis), DisplayDays(endMillis, nowMillis),
             SliceFrom(m.subscriptionEndDate, 5))
  }

  /** For an end date stored as `yyyy-MM-dd`, "Plan Ends" shows `MM-dd`. */
  lemma PlanEndsShowsMonthDay(d: Date)
    ensures SliceFrom(FormatIso(d), 5) == Padded(d.month, 2) + "-" + Padded(d.day, 2)
    ensures |SliceFrom(FormatIso(d), 5)| == 5
  {
    MonthDaySuffix(d);
  }

  /** The greeting for "Jane Doe" is "Jane". */
  lemma GreetingExample()
    ensures FirstWord("Jane Doe") == "Jane"
  {
    FirstWordUnique("Jane Doe", "Jane");
  }

  class Portal {
    var mobile: string
    var user: Option<Member>
    var loading: bool
    var weight: string
    var justUpdated: bool
    /** The requests this page has sent, oldest first. */
    var sent: seq<Request>

    constructor ()
      ensures mobile == "" && user == None && !loading && weight == "" && !justUpdated && sent == []
    {
      mobile, user, loading, weight, justUpdated, sent := "", None, false, "", false, [];
    }

    /** What the page shows now. */
    function Current(endMillis: int, nowMillis: int): (s: Screen)
      reads this
      ensures s.Loader? <==> loading
      ensures s.LoginScreen? <==> !loading && user.None?
    {
      Render(loading, user, endMillis, nowMillis)
    }

    /** The mobile input's `onChange`. */
    method SetMobile(value: string)
      modifies this
      ensures mobile == value
      ensures user == old(user) && loading == old(loading) && weight == old(weight)
      ensures justUpdated == old(justUpdated) && sent == old(sent)
    {
      mobile := value;
    }

    /**
     * `handleLogin`, submitted from the login screen, up to the awaited call
     * (the 800 ms delay before the request is taken as immediate). An empty
     * number returns at once.
     */
    method HandleLogin()
      requires !loading && user.None?
      modifies this
      ensures mobile == "" ==> !loading && sent == old(sent)
      ensures mobile != "" ==> loading && sent == old(sent) + [MemberLogin(mobile)]
      ensures mobile == old(mobile) && user == old(user) && weight == old(weight)
      ensures justUpdated == old(justUpdated)
    {
      if mobile == "" {
        return;
      }
      loading := true;
      sent := sent + [MemberLogin(mobile)];
    }

    /** The lookup resolves: a found member opens the session; an unknown number leaves it closed. */
    method CompleteLogin(res: Response<Member>)
      requires loading && user.None?
      modifies this
      ensures !loading
      ensures res.Ok? ==> user == Some(res.data) && weight == res.data.weight.GetOr("")
      ensures res.Failed? ==> user == None && weight == old(weight)
      ensures mobile == old(mobile) && justUpdated == old(justUpdated) && sent == old(sent)
    {
      if res.Ok? {
        user := Some(res.data);
        weight := res.data.weight.GetOr("");
      }
      loading := false;
    }

    /** The logout button: drop the member locally, with no backend call. */
    method Logout()
      modifies this
      ensures user == None
      ensures mobile == old(mobile) && loading == old(loading) && weight == old(weight)
      ensures justUpdated == old(justUpdated) && sent == old(sent)
    {
      user := None;
    }

    /** The weight input's `onChange`: any text, unchecked. */
    method SetWeight(value: string)
      modifies this
      ensures weight == value
      ensures mobile == old(mobile) && user == old(user) && loading == old(loading)
      ensures justUpdated == old(justUpdated) && sent == old(sent)
    {
      weight := value;
    }

    /** `handleUpdate`, pressed on the member's home, up to the awaited call: the raw weight is sent. */
    method HandleUpdate()
      requires !loading && user.Some?
      modifies this
      ensures user == old(user) && user.Some?
      ensures loading && sent == old(sent) + [UpdateWeight(user.value.id, weight)]
      ensures mobile == old(mobile) && weight == old(weight) && justUpdated == old(justUpdated)
    {
      loading := true;
      sent := sent + [UpdateWeight(user.value.id, weight)];
    }

    /** The weight update resolves: success lights the acknowledgement; the loader comes down either way. */
    method CompleteUpdate(res: Response<()>)
      requires loading && user.Some?
      modifies this
      ensures !loading
      ensures res.Ok? ==> justUpdated
      ensures res.Failed? ==> justUpdated == old(justUpdated)
      ensures mobile == old(mobile) && user == old(user) && weight == old(weight) && sent == old(sent)
    {
      if res.Ok? {
        justUpdated := true;
      }
      loading := false;
    }

    /** The 2000 ms timer started by a successful update fires. */
    method AcknowledgementExpires()
      modifies this
      ensures !justUpdated
      ensures mobile == old(mobile) && user == old(user) && loading == old(loading)
      ensures weight == old(weight) && sent == old(sent)
    {
      justUpdated := false;
    }
  }
}
