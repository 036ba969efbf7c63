/** The three-page booking wizard: page 1 picks a date, page 2 a time, page 3 takes the
    contact details and submits. The page keeps one draft record (`formData`), shows one
    page at a time, highlights the progress steps reached so far and marks the chosen time
    button.

    The DOM becomes three arrays of flags: which time buttons carry the `selected` class,
    which pages are displayed, and which progress steps carry the `active` class. The date
    picker's choice (already converted to `YYYY-MM-DD`), the values typed into the contact
    form, and the server's reply are parameters. */
module Wizard {
  import opened JsText
  import opened TimeSlots
  import Slug

  /** Pages of the wizard, and steps of the progress bar (one per page). */
  const PageCount: nat := 3

  /** The draft booking the page sends as JSON. */
  datatype FormData = FormData(
    date: string,
    time: string,
    time12Hour: string,
    name: string,
    email: string,
    budget: string,
    campaignGoals: string,
    urlSlug: string)

  /** What the visitor typed into the contact form on page 3. */
  datatype Contact = Contact(name: string, email: string, budget: string, campaignGoals: string)

  /** The parsed JSON body of a reply: whether `success` is truthy, and `error` (empty when
      it is missing or falsy). */
  datatype ReplyBody = ReplyBody(success: bool, error: string)

  /** What came back from the POST: either `fetch` failed, or a response arrived with its
      `ok` flag, status code, raw text, and its body if the text parses as JSON. */
  datatype Reply =
    | NetworkError(message: string)
    | Received(ok: bool, status: nat, text: string, body: Option<ReplyBody>)

  /** How the submit handler ends: the booking is scheduled, or an error message is shown. */
  datatype Outcome = Scheduled | Failed(message: string)

  /** The submit handler's reading of the reply. An unparsable body fails first, then a
      non-OK status, then a falsy `success`; a message the server sent is preferred to the
      page's own. */
  function Classify(reply: Reply): (outcome: Outcome)
    ensures outcome.Scheduled? ==> reply.Received? && reply.ok && reply.body.Some?
    ensures reply.NetworkError? ==> outcome == Failed(reply.message)
  {
    match reply
    case NetworkError(message) => Failed(message)
    case Received(ok, status, text, body) =>
      if body.None? then Failed("Invalid response from server: " + text)
      else if !ok then
        Failed(if body.value.error != "" then body.value.error else "HTTP error! status: " + Decimal(status))
      else if body.value.success then Scheduled
      else Failed(if body.value.error != "" then body.value.error else "Failed to schedule appointment")
  }

  /** A submission succeeds exactly when a response arrived, its body parsed, its status
      was OK and its `success` was truthy. */
  lemma ScheduledExactlyWhen(reply: Reply)
    ensures Classify(reply) == Scheduled <==>
      reply.Received? && reply.body.Some? && reply.ok && reply.body.value.success
  {
  }

  /** Every failure that comes with a response explains itself: the message is never empty,
      and it is the server's own `error` whenever the body parsed and carried one. A body that
      does not parse is reported with its text whatever the status, and an OK reply that
      refuses without a reason gets the page's own message. */
  lemma {:induction false} FailureExplained(reply: Reply)
    requires reply.Received? && Classify(reply).Failed?
    ensures Classify(reply).message != ""
    ensures reply.body.Some? && reply.body.value.error != "" ==>
      Classify(reply).message == reply.body.value.error
    ensures reply.body.None? ==> Classify(reply).message == "Invalid response from server: " + reply.text
    ensures reply.body.Some? && reply.ok && !reply.body.value.success && reply.body.value.error == "" ==>
      Classify(reply).message == "Failed to schedule appointment"
  {
    if reply.body.Some? && !reply.ok && reply.body.value.error == "" {
      var m := Classify(reply).message;
      assert m == "HTTP error! status: " + Decimal(reply.status);
      assert m[0] == 'H';
    }
  }

  /** A failed request reports the HTTP status it got when the server gave no reason:
      the number after `HTTP error! status: ` reads back as the status code and is written
      without leading zeros. */
  lemma {:induction false} HttpErrorCarriesStatus(ok: bool, status: nat, text: string, success: bool)
    requires !ok
    ensures var m := Classify(Received(ok, status, text, Some(ReplyBody(success, "")))).message;
      var prefix := "HTTP error! status: ";
      |m| > |prefix| && m[..|prefix|] == prefix && AllDigits(m[|prefix|..])
      && ParseDecimal(m[|prefix|..]) == status && (m[|prefix|] == '0' ==> |m| == |prefix| + 1)
  {
    var prefix := "HTTP error! status: ";
    var m := prefix + Decimal(status);
    assert m[..|prefix|] == prefix;
    assert m[|prefix|..] == Decimal(status);
    DecimalRoundTrip(status);
    DecimalDigits(status);
    DecimalNoLeadingZero(status);
  }

  /** The progress bar with steps 1..n active and the rest not (step `k + 1` is flag `k`). */
  function Progress(n: nat): seq<bool> {
    seq(PageCount, k => k < n)
  }

  /** The display flags with only page `p` shown (page `k + 1` is flag `k`). */
  function OnlyPage(p: nat): seq<bool> {
    seq(PageCount, k => k == p - 1)
  }

  /** The progress steps (numbered from 1) whose flag is set. */
  function ActiveSteps(flags: seq<bool>): set<nat> {
    set k | 0 <= k < |flags| && flags[k] :: k + 1
  }

  /** After `updateProgress(n)` the active steps are exactly 1..n. */
  lemma ProgressActiveSteps(n: nat)
    requires n <= PageCount
    ensures forall step :: step in ActiveSteps(Progress(n)) <==> 1 <= step <= n
  {
    var flags := Progress(n);
    forall step | 1 <= step <= n
      ensures step in ActiveSteps(flags)
    {
      assert flags[step - 1];
    }
  }

  /** Showing one page hides the others: exactly one page is on screen. */
  lemma OnePageShown(p: nat)
    requires 1 <= p <= PageCount
    ensures CountSet(OnlyPage(p)) == 1
  {
    SingleSelectCount(OnlyPage(p), p - 1);
  }

  /** How many flags are set. */
  function CountSet(flags: seq<bool>): nat {
    if flags == [] then 0 else (if flags[0] then 1 else 0) + CountSet(flags[1..])
  }

  /** Flags set at one index and nowhere else count one: a single-select. */
  lemma {:induction false} SingleSelectCount(flags: seq<bool>, i: nat)
    requires i < |flags|
    requires forall k :: 0 <= k < |flags| ==> (flags[k] <==> k == i)
    ensures CountSet(flags) == 1
  {
    if i == 0 {
      NoneSetCount(flags[1..]);
    } else {
      SingleSelectCount(flags[1..], i - 1);
    }
  }

  /** Flags with nothing set count zero. */
  lemma {:induction false} NoneSetCount(flags: seq<bool>)
    requires forall k :: 0 <= k < |flags| ==> !flags[k]
    ensures CountSet(flags) == 0
  {
    if flags != [] {
      NoneSetCount(flags[1..]);
    }
  }

  class BookingWizard {
    /** The draft record. */
    var formData: FormData
    /** The time buttons, in the order they were generated. */
    const slots: seq<Slot>
    /** `selected[k]`: time button `k` carries the `selected` class. */
    const selected: array<bool>
    /** `display[p - 1]`: page `p` is displayed. */
    const display: array<bool>
    /** `steps[s - 1]`: progress step `s` is active. */
    const steps: array<bool>

    ghost predicate Valid()
      reads this
    {
      selected.Length == |slots| && display.Length == PageCount && steps.Length == PageCount
      && display != steps && selected != display && selected != steps
    }

    /** Page load: the slug is chosen, the time buttons are built, nothing is selected, and
        the wizard stands on page 1 with the first progress step active. */
    constructor (referrer: string, pathname: Option<string>, newsletter: Option<string>, now: nat)
      ensures Valid() && fresh(selected) && fresh(display) && fresh(steps)
      ensures formData == FormData("", "", "", "", "", "", "",
                                   Slug.GenerateUrlSlug(referrer, pathname, newsletter, now))
      ensures slots == SlotTable()
      ensures forall k :: 0 <= k < selected.Length ==> !selected[k]
      ensures display[..] == OnlyPage(1) && steps[..] == Progress(1)
    {
      var slug := Slug.GenerateUrlSlug(referrer, pathname, newsletter, now);
      formData := FormData("", "", "", "", "", "", "", slug);
      var generated := GenerateTimeSlots();
      slots := generated;
      var marks := new bool[|generated|](_ => false);
      selected := marks;
      var shown := FirstPageFlags();
      var active := FirstPageFlags();
      display := shown;
      steps := active;
    }

    /** A fresh row of page flags with only the first set: page 1 shown, step 1 active. */
    static method FirstPageFlags() returns (flags: array<bool>)
      ensures fresh(flags) && flags[..] == OnlyPage(1) && flags[..] == Progress(1)
    {
      flags := new bool[PageCount](k => k == 0);
    }

    /** `selectTime`: every button loses the `selected` mark, the clicked one gains it, and
        its two strings are copied into the draft; nothing else in the draft changes. */
    method SelectTime(i: nat)
      requires Valid() && i < |slots|
      modifies this`formData, selected
      ensures Valid()
      ensures forall k :: 0 <= k < selected.Length ==> (selected[k] <==> k == i)
      ensures CountSet(selected[..]) == 1
      ensures formData == old(formData).(time := slots[i].time24, time12Hour := slots[i].time12)
    {
      var k := 0;
      while k < selected.Length
        invariant 0 <= k <= selected.Length
        invariant forall j :: 0 <= j < k ==> !selected[j]
        invariant formData == old(formData)
      {
        selected[k] := false;
        k := k + 1;
      }
      selected[i] := true;
      SingleSelectCount(selected[..], i);
      formData := formData.(time := slots[i].time24, time12Hour := slots[i].time12);
    }

    /** `updateProgress(n)`: every step is reset, then steps 1..n are activated. */
    method UpdateProgress(n: nat)
      requires Valid() && n <= PageCount
      modifies steps
      ensures Valid()
      ensures steps[..] == Progress(n)
    {
      var k := 0;
      while k < steps.Length
        invariant 0 <= k <= steps.Length
        invariant forall j :: 0 <= j < k ==> !steps[j]
      {
        steps[k] := false;
        k := k + 1;
      }
      var i := 1;
      while i <= n
        invariant 1 <= i <= n + 1
        invariant forall j :: 0 <= j < steps.Length ==> (steps[j] <==> j < i - 1)
      {
        steps[i - 1] := true;
        i := i + 1;
      }
    }

    /** `validatePage(n)`: page 1 needs a date (which it records), page 2 needs a time in
        the draft, every other page passes. */
    method ValidatePage(n: int, pickedDate: Option<string>) returns (ok: bool)
      modifies this`formData
      ensures ok <==> (n == 1 ==> pickedDate.Some?) && (n == 2 ==> formData.time != "")
      ensures formData == if n == 1 && ok then old(formData).(date := pickedDate.value)
                          else old(formData)
    {
      if n == 1 {
        if pickedDate.None? {
          return false;
        }
        formData := formData.(date := pickedDate.value);
        return true;
      } else if n == 2 {
        if formData.time == "" {
          return false;
        }
        return true;
      } else {
        return true;
      }
    }

    /** `nextPage(n)`: if page `n` validates, page `n` is hidden, page `n + 1` shown and the
        progress bar set to `n + 1`; otherwise nothing on screen changes. */
    method NextPage(n: nat, pickedDate: Option<string>) returns (advanced: bool)
      requires Valid() && 1 <= n < PageCount
      modifies this`formData, display, steps
      ensures Valid()
      ensures advanced <==> (n == 1 ==> pickedDate.Some?) && (n == 2 ==> old(formData).time != "")
      ensures formData == if n == 1 && advanced then old(formData).(date := pickedDate.value)
                          else old(formData)
      ensures advanced ==> display[..] == old(display[..])[n - 1 := false][n := true]
                           && steps[..] == Progress(n + 1)
      ensures advanced && old(display[..]) == OnlyPage(n) ==> display[..] == OnlyPage(n + 1)
      ensures !advanced ==> display[..] == old(display[..]) && steps[..] == old(steps[..])
    {
      advanced := ValidatePage(n, pickedDate);
      if !advanced {
        return;
      }
      display[n - 1] := false;
      display[n] := true;
      UpdateProgress(n + 1);
    }

    /** `previousPage(n)`: page `n` is hidden, page `n - 1` shown and the progress bar set
        to `n - 1`, with no check. */
    method PreviousPage(n: nat)
      requires Valid() && 1 < n <= PageCount
      modifies display, steps
      ensures Valid()
      ensures display[..] == old(display[..])[n - 1 := false][n - 2 := true]
      ensures old(display[..]) == OnlyPage(n) ==> display[..] == OnlyPage(n - 1)
      ensures steps[..] == Progress(n - 1)
    {
      display[n - 1] := false;
      display[n - 2] := true;
      UpdateProgress(n - 1);
    }

    /** The submit handler: the contact fields are copied into the draft, the draft is
        posted, and the reply classified. Success shows page 1 alone and resets the
        progress bar to step 1; a failure changes nothing on screen. The draft itself is
        not cleared on success. */
    method Submit(contact: Contact, reply: Reply) returns (outcome: Outcome)
      requires Valid()
      modifies this`formData, display, steps
      ensures Valid()
      ensures formData == old(formData).(name := contact.name, email := contact.email,
                                         budget := contact.budget,
                                         campaignGoals := contact.campaignGoals)
      ensures outcome == Classify(reply)
      ensures outcome.Scheduled? ==> display[..] == OnlyPage(1) && steps[..] == Progress(1)
      ensures outcome.Failed? ==> display[..] == old(display[..]) && steps[..] == old(steps[..])
    {
      formData := formData.(name := contact.name, email := contact.email,
                            budget := contact.budget, campaignGoals := contact.campaignGoals);
      outcome := Classify(reply);
      if outcome.Scheduled? {
        var k := 0;
        while k < display.Length
          invariant 0 <= k <= display.Length
          invariant forall j :: 0 <= j < k ==> !display[j]
          invariant steps[..] == old(steps[..])
          invariant formData == old(formData).(name := contact.name, email := contact.email,
                                               budget := contact.budget,
                                               campaignGoals := contact.campaignGoals)
        {
          display[k] := false;
          k := k + 1;
        }
        display[0] := true;
        UpdateProgress(1);
      }
    }
  }
}
