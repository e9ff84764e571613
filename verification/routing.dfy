/**
 * Routing of operator replies to the workers that wait for a code, in
 * main_cloud.py: `capture_captcha` (a pure 6-digit reply) and
 * `handle_text_message` (any other text). A worker waits while it is not
 * logged in and its code field is None; IDFC workers have an `otp_code`
 * field, the other classes a `captcha_code` field.
 */
module Routing {
  import opened Wrappers
  import opened Strings
  import opened Aliases

  /** The routing-relevant fields of one worker, as a value. */
  datatype View = View(hasOtp: bool, otp: Option<string>, hasCaptcha: bool, captcha: Option<string>, loggedIn: bool)

  datatype Slot = OtpSlot | CaptchaSlot

  /** The reply goes into field `slot` of the worker at position `index` of `workers`. */
  datatype Delivery = Delivery(index: nat, slot: Slot)

  /** `hasattr(w, "otp_code") and w.otp_code is None and not w.logged_in` (and the captcha twin). */
  predicate Wants(v: View, slot: Slot) {
    match slot
    case OtpSlot => v.hasOtp && v.otp.None? && !v.loggedIn
    case CaptchaSlot => v.hasCaptcha && v.captcha.None? && !v.loggedIn
  }

  predicate Waiting(v: View) {
    Wants(v, OtpSlot) || Wants(v, CaptchaSlot)
  }

  /** The first position from `from` on whose worker wants `slot`. */
  function FirstWanting(vs: seq<View>, slot: Slot, from: nat): (r: Option<nat>)
    requires from <= |vs|
    ensures r.Some? ==> from <= r.value < |vs| && Wants(vs[r.value], slot)
    ensures r.Some? ==> forall j :: from <= j < r.value ==> !Wants(vs[j], slot)
    ensures r.None? <==> forall j :: from <= j < |vs| ==> !Wants(vs[j], slot)
    decreases |vs| - from
  {
    if from == |vs| then None
    else if Wants(vs[from], slot) then Some(from)
    else FirstWanting(vs, slot, from + 1)
  }

  /** The first position from `from` on whose worker waits for either code. */
  function FirstWaiting(vs: seq<View>, from: nat): (r: Option<nat>)
    requires from <= |vs|
    ensures r.Some? ==> from <= r.value < |vs| && Waiting(vs[r.value])
    ensures r.Some? ==> forall j :: from <= j < r.value ==> !Waiting(vs[j])
    ensures r.None? <==> forall j :: from <= j < |vs| ==> !Waiting(vs[j])
    decreases |vs| - from
  {
    if from == |vs| then None
    else if Waiting(vs[from]) then Some(from)
    else FirstWaiting(vs, from + 1)
  }

  /**
   * capture_captcha's choice: one pass over the workers, trying OTP and then
   * captcha on each worker before moving on to the next.
   */
  function CaptureTarget(vs: seq<View>): (r: Option<Delivery>)
    ensures r.None? <==> forall j :: 0 <= j < |vs| ==> !Wants(vs[j], OtpSlot) && !Wants(vs[j], CaptchaSlot)
    ensures r.Some? ==> r.value.index < |vs| && Wants(vs[r.value.index], r.value.slot)
    ensures r.Some? && r.value.slot == CaptchaSlot ==> !Wants(vs[r.value.index], OtpSlot)
    ensures r.Some? ==> forall j :: 0 <= j < r.value.index ==> !Waiting(vs[j])
  {
    match FirstWaiting(vs, 0)
    case None => None
    case Some(i) => Some(Delivery(i, if Wants(vs[i], OtpSlot) then OtpSlot else CaptchaSlot))
  }

  /** How handle_text_message disposes of a message. */
  datatype TextRoute =
    | KgbDate          // a pending KGB custom-date flow takes the text
    | SlashRefused     // text containing "/" outside that flow is refused
    | Deliver(d: Delivery)
    | PinHandled       // a pending /restart takes the text as its PIN
    | Ignored          // no worker waits

  /**
   * handle_text_message's choice: the KGB date flow, then the "/" refusal,
   * then a pass over ALL workers for an OTP, then a pending restart PIN,
   * then a second pass for a captcha.
   */
  function TextTarget(vs: seq<View>, text: string, kgbPending: bool, pinPending: bool): (r: TextRoute)
    ensures r == KgbDate <==> kgbPending
    ensures r == SlashRefused <==> !kgbPending && '/' in text
    ensures r.Deliver? ==> r.d.index < |vs| && Wants(vs[r.d.index], r.d.slot)
    ensures r.Deliver? && r.d.slot == OtpSlot ==> forall j :: 0 <= j < r.d.index ==> !Wants(vs[j], OtpSlot)
    ensures r.Deliver? && r.d.slot == CaptchaSlot ==>
      && !pinPending
      && (forall j :: 0 <= j < |vs| ==> !Wants(vs[j], OtpSlot))
      && (forall j :: 0 <= j < r.d.index ==> !Wants(vs[j], CaptchaSlot))
    ensures r == PinHandled <==> !kgbPending && '/' !in text && pinPending && FirstWanting(vs, OtpSlot, 0).None?
    ensures !kgbPending && '/' !in text && FirstWanting(vs, OtpSlot, 0).Some? ==>
      r == Deliver(Delivery(FirstWanting(vs, OtpSlot, 0).value, OtpSlot))
    ensures (!kgbPending && '/' !in text && FirstWanting(vs, OtpSlot, 0).None? && !pinPending
             && FirstWanting(vs, CaptchaSlot, 0).Some?) ==>
      r == Deliver(Delivery(FirstWanting(vs, CaptchaSlot, 0).value, CaptchaSlot))
    ensures r == Ignored <==>
      !kgbPending && '/' !in text && !pinPending && FirstWanting(vs, OtpSlot, 0).None? && FirstWanting(vs, CaptchaSlot, 0).None?
  {
    if kgbPending then KgbDate
    else if '/' in text then SlashRefused
    else match FirstWanting(vs, OtpSlot, 0)
      case Some(i) => Deliver(Delivery(i, OtpSlot))
      case None =>
        if pinPending then PinHandled
        else match FirstWanting(vs, CaptchaSlot, 0)
          case Some(i) => Deliver(Delivery(i, CaptchaSlot))
          case None => Ignored
  }

  /** The worker views after `text` is stored in the delivered slot. */
  function Apply(vs: seq<View>, d: Option<Delivery>, text: string): (r: seq<View>)
    requires d.Some? ==> d.value.index < |vs|
    ensures |r| == |vs|
    ensures forall j :: 0 <= j < |vs| && (d.None? || j != d.value.index) ==> r[j] == vs[j]
    ensures d.Some? && d.value.slot == OtpSlot ==> r[d.value.index].otp == Some(text)
    ensures d.Some? && d.value.slot == CaptchaSlot ==> r[d.value.index].captcha == Some(text)
    ensures d.Some? && d.value.slot == OtpSlot ==> r[d.value.index] == vs[d.value.index].(otp := Some(text))
    ensures d.Some? && d.value.slot == CaptchaSlot ==> r[d.value.index] == vs[d.value.index].(captcha := Some(text))
  {
    match d
    case None => vs
    case Some(Delivery(i, OtpSlot)) => vs[i := vs[i].(otp := Some(text))]
    case Some(Delivery(i, CaptchaSlot)) => vs[i := vs[i].(captcha := Some(text))]
  }

  /** A pure 6-digit reply, as capture_captcha tests it after stripping. */
  predicate SixDigits(text: string) {
    |text| == 6 && AllDigits(text)
  }

  // ---------------------------------------------------------------------
  // Properties of the routing rule
  // ---------------------------------------------------------------------

  /**
   * A reply fills at most one waiting slot: the chosen worker stops waiting
   * for that code, and every other worker, waiting or not, keeps its fields.
   */
  lemma CaptureFillsOneSlot(vs: seq<View>, text: string)
    ensures var d := CaptureTarget(vs); var r := Apply(vs, d, text);
      && (d.Some? ==> !Wants(r[d.value.index], d.value.slot))
      && (forall j :: 0 <= j < |vs| && (d.None? || j != d.value.index) ==> r[j] == vs[j])
      && (d.None? ==> r == vs)
  {
  }

  /**
   * The ambiguity of the rule: when two workers both wait for a captcha,
   * the reply goes to the one started first and the other keeps waiting,
   * whichever of the two the operator was answering.
   */
  lemma TwoWaitingFirstWins(text: string)
    ensures var tmb := View(false, None, true, None, false);
      var vs := [tmb, tmb];
      && CaptureTarget(vs) == Some(Delivery(0, CaptchaSlot))
      && Waiting(Apply(vs, CaptureTarget(vs), text)[1])
      && TextTarget(vs, text, false, false) == (if '/' in text then SlashRefused else Deliver(Delivery(0, CaptchaSlot)))
  {
    var tmb := View(false, None, true, None, false);
    assert Waiting([tmb, tmb][0]);
  }

  /**
   * The two handlers disagree when a captcha-waiting worker precedes an
   * OTP-waiting one: capture_captcha feeds the first worker's captcha,
   * handle_text_message the second worker's OTP.
   */
  lemma HandlersDisagree()
    ensures var tmb := View(false, None, true, None, false);
      var idfc := View(true, None, false, None, false);
      && CaptureTarget([tmb, idfc]) == Some(Delivery(0, CaptchaSlot))
      && TextTarget([tmb, idfc], "123456", false, false) == Deliver(Delivery(1, OtpSlot))
  {
    var tmb := View(false, None, true, None, false);
    var idfc := View(true, None, false, None, false);
    assert Waiting([tmb, idfc][0]);
    assert Wants([tmb, idfc][1], OtpSlot);
  }

  /**
   * With no worker waiting for an OTP and no restart pending, both handlers
   * route a slash-free reply to the same worker.
   */
  lemma HandlersAgreeWithoutOtp(vs: seq<View>, text: string)
    requires forall j :: 0 <= j < |vs| ==> !Wants(vs[j], OtpSlot)
    requires '/' !in text
    ensures var t := TextTarget(vs, text, false, false);
      match CaptureTarget(vs)
      case None => t == Ignored
      case Some(d) => t == Deliver(d)
  {
    var c := CaptureTarget(vs);
    var f := FirstWanting(vs, CaptchaSlot, 0);
    if c.Some? {
      var i := c.value.index;
      assert f.Some? by {
        assert Wants(vs[i], CaptchaSlot);
      }
    } else {
      assert f.None?;
    }
  }

  // ---------------------------------------------------------------------
  // Handler dispatch (main, 3811-3818)
  // ---------------------------------------------------------------------

  datatype Handler = TextHandler | CaptureHandler

  /** `filters.TEXT & ~filters.COMMAND`: any text that does not start with a command. */
  predicate TextFilter(message: string) {
    !(|message| > 0 && message[0] == '/')
  }

  /** `filters.Regex(r"^\d{6}$") & filters.Chat(...)`; `$` also matches before a final newline. */
  predicate CaptureFilter(message: string, fromOperatorChat: bool) {
    && fromOperatorChat
    && (SixDigits(message) || (|message| == 7 && SixDigits(message[..6]) && message[6] == '\n'))
  }

  function FirstMatching(order: seq<Handler>, message: string, fromOperatorChat: bool): (r: Option<Handler>)
    ensures r.Some? ==> r.value in order
  {
    if order == [] then None
    else if (order[0] == TextHandler && TextFilter(message))
         || (order[0] == CaptureHandler && CaptureFilter(message, fromOperatorChat))
    then Some(order[0])
    else FirstMatching(order[1..], message, fromOperatorChat)
  }

  /** The registration order of main: the general text handler is added first. */
  const AsRegistered: seq<Handler> := [TextHandler, CaptureHandler]

  /** The order capture_captcha's own description calls for: it sees 6-digit replies first. */
  const CaptureFirst: seq<Handler> := [CaptureHandler, TextHandler]

  /**
   * Finding: every message capture_captcha's filter accepts is accepted by
   * the earlier text handler too, so with one handler per update and group
   * capture_captcha never runs.
   */
  lemma CaptureShadowed(message: string, fromOperatorChat: bool)
    ensures FirstMatching(AsRegistered, message, fromOperatorChat) != Some(CaptureHandler)
    ensures CaptureFilter(message, fromOperatorChat) ==>
      FirstMatching(AsRegistered, message, fromOperatorChat) == Some(TextHandler)
  {
    if CaptureFilter(message, fromOperatorChat) {
      assert IsDigit(message[0]);
    }
  }

  /** With capture_captcha registered first, 6-digit replies reach it and all other text is unaffected. */
  lemma CaptureFirstDispatch(message: string, fromOperatorChat: bool)
    ensures CaptureFilter(message, fromOperatorChat) ==>
      FirstMatching(CaptureFirst, message, fromOperatorChat) == Some(CaptureHandler)
    ensures !CaptureFilter(message, fromOperatorChat) ==>
      FirstMatching(CaptureFirst, message, fromOperatorChat) == FirstMatching(AsRegistered, message, fromOperatorChat)
  {
  }

  // ---------------------------------------------------------------------
  // The workers as objects
  // ---------------------------------------------------------------------

  class Worker {
    const kind: WorkerKind
    var otpCode: Option<string>
    var captchaCode: Option<string>
    var loggedIn: bool

    /** Only IDFCWorker has `otp_code`; the other classes have `captcha_code`. */
    function ViewOf(): View
      reads this
    {
      View(kind == Idfc, otpCode, kind != Idfc, captchaCode, loggedIn)
    }

    /** A new worker: no code yet, not logged in, so waiting for its code. */
    constructor (k: WorkerKind)
      ensures kind == k && otpCode == None && captchaCode == None && !loggedIn
      ensures Waiting(ViewOf())
    {
      kind := k;
      otpCode := None;
      captchaCode := None;
      loggedIn := false;
    }

    /** The state reset at the end of `_retry`: forget the code and the login. */
    method Recycle()
      modifies this
      ensures !loggedIn
      ensures kind == Idfc ==> otpCode == None && captchaCode == old(captchaCode)
      ensures kind != Idfc ==> captchaCode == None && otpCode == old(otpCode)
      ensures Waiting(ViewOf())
    {
      if kind == Idfc {
        otpCode := None;
      } else {
        captchaCode := None;
      }
      loggedIn := false;
    }

    /** The end of a successful `_login`. */
    method LoggedIn()
      modifies this
      ensures loggedIn && otpCode == old(otpCode) && captchaCode == old(captchaCode)
      ensures !Waiting(ViewOf())
    {
      loggedIn := true;
    }
  }

  function Views(ws: seq<Worker>): (r: seq<View>)
    reads set w | w in ws
    ensures |r| == |ws| && forall j :: 0 <= j < |ws| ==> r[j] == ws[j].ViewOf()
  {
    seq(|ws|, j reads set w | w in ws requires 0 <= j < |ws| => ws[j].ViewOf())
  }

  /** Each entry of `workers` is its own object: run_alias builds a new worker per alias. */
  predicate Distinct(ws: seq<Worker>) {
    forall i, j :: 0 <= i < j < |ws| ==> ws[i] != ws[j]
  }

  /**
   * capture_captcha over the values of `workers`, in order: a stripped
   * 6-digit reply goes to the first worker that waits for an OTP or, failing
   * that on the same worker, for a captcha.
   */
  method CaptureCaptcha(ws: seq<Worker>, message: string) returns (d: Option<Delivery>)
    requires Distinct(ws)
    modifies set w | w in ws
    ensures d == (if SixDigits(Strip(message)) then CaptureTarget(old(Views(ws))) else None)
    ensures Views(ws) == Apply(old(Views(ws)), d, Strip(message))
  {
    var text := Strip(message);
    d := None;
    if !SixDigits(text) {
      return;
    }
    ghost var vs := Views(ws);
    var i := 0;
    while i < |ws|
      invariant 0 <= i <= |ws|
      invariant Views(ws) == vs
      invariant forall j :: 0 <= j < i ==> !Waiting(vs[j])
    {
      var w := ws[i];
      if w.kind == Idfc && w.otpCode == None && !w.loggedIn {
        FirstWaitingAt(vs, i);
        Store(ws, i, OtpSlot, text);
        return Some(Delivery(i, OtpSlot));
      }
      if w.kind != Idfc && w.captchaCode == None && !w.loggedIn {
        FirstWaitingAt(vs, i);
        Store(ws, i, CaptchaSlot, text);
        return Some(Delivery(i, CaptchaSlot));
      }
      i := i + 1;
    }
    FirstWaitingNone(vs);
  }

  /**
   * handle_text_message over the values of `workers`: after the KGB date
   * flow and the "/" refusal, a first loop offers the text as an OTP to every
   * worker, then a pending restart PIN takes it, then a second loop offers
   * it as a captcha.
   */
  method HandleText(ws: seq<Worker>, message: string, kgbPending: bool, pinPending: bool) returns (r: TextRoute)
    requires Distinct(ws)
    modifies set w | w in ws
    ensures r == TextTarget(old(Views(ws)), Strip(message), kgbPending, pinPending)
    ensures Views(ws) == Apply(old(Views(ws)), if r.Deliver? then Some(r.d) else None, Strip(message))
  {
    var text := Strip(message);
    if kgbPending {
      return KgbDate;
    }
    if '/' in text {
      return SlashRefused;
    }
    var found := Offer(ws, text, OtpSlot);
    if found.Some? {
      return Deliver(Delivery(found.value, OtpSlot));
    }
    if pinPending {
      return PinHandled;
    }
    found := Offer(ws, text, CaptchaSlot);
    if found.Some? {
      return Deliver(Delivery(found.value, CaptchaSlot));
    }
    r := Ignored;
  }

  /**
   * One of handle_text_message's loops: the first worker that wants `slot`
   * gets the text in that field, and the loop stops there.
   */
  method Offer(ws: seq<Worker>, text: string, slot: Slot) returns (found: Option<nat>)
    requires Distinct(ws)
    modifies set w | w in ws
    ensures found == FirstWanting(old(Views(ws)), slot, 0)
    ensures Views(ws) == Apply(old(Views(ws)), if found.Some? then Some(Delivery(found.value, slot)) else None, text)
  {
    ghost var vs := Views(ws);
    var i := 0;
    while i < |ws|
      invariant 0 <= i <= |ws|
      invariant Views(ws) == vs
      invariant forall j :: 0 <= j < i ==> !Wants(vs[j], slot)
    {
      var w := ws[i];
      if slot == OtpSlot && w.kind == Idfc && w.otpCode == None && !w.loggedIn {
        FirstWantingAt(vs, slot, i);
        Store(ws, i, slot, text);
        return Some(i);
      }
      if slot == CaptchaSlot && w.kind != Idfc && w.captchaCode == None && !w.loggedIn {
        FirstWantingAt(vs, slot, i);
        Store(ws, i, slot, text);
        return Some(i);
      }
      i := i + 1;
    }
    return None;
  }

  /** `w.otp_code = text` or `w.captcha_code = text` on the `i`-th worker: no other view changes. */
  method Store(ws: seq<Worker>, i: nat, slot: Slot, text: string)
    requires Distinct(ws) && i < |ws|
    modifies ws[i]
    ensures Views(ws) == Apply(old(Views(ws)), Some(Delivery(i, slot)), text)
  {
    ghost var vs := Views(ws);
    if slot == OtpSlot {
      ws[i].otpCode := Some(text);
    } else {
      ws[i].captchaCode := Some(text);
    }
    ViewsAfterWrite(ws, vs, i);
  }

  lemma FirstWantingAt(vs: seq<View>, slot: Slot, i: nat)
    requires i < |vs| && Wants(vs[i], slot)
    requires forall j :: 0 <= j < i ==> !Wants(vs[j], slot)
    ensures FirstWanting(vs, slot, 0) == Some(i)
  {
    var f := FirstWanting(vs, slot, 0);
    assert f.Some?;
    assert !(f.value < i);
  }

  lemma FirstWaitingAt(vs: seq<View>, i: nat)
    requires i < |vs| && Waiting(vs[i])
    requires forall j :: 0 <= j < i ==> !Waiting(vs[j])
    ensures FirstWaiting(vs, 0) == Some(i)
  {
    var f := FirstWaiting(vs, 0);
    assert f.Some?;
    assert !(f.value < i);
  }

  lemma FirstWaitingNone(vs: seq<View>)
    requires forall j :: 0 <= j < |vs| ==> !Waiting(vs[j])
    ensures CaptureTarget(vs) == None
  {
  }

  /** After one write to `ws[i]`, the views of all other workers are as before. */
  lemma ViewsAfterWrite(ws: seq<Worker>, vs: seq<View>, i: nat)
    requires Distinct(ws) && i < |ws| && |vs| == |ws|
    requires forall j :: 0 <= j < |ws| && j != i ==> ws[j].ViewOf() == vs[j]
    ensures Views(ws) == vs[i := ws[i].ViewOf()]
  {
  }
}
