/** apps/bot/src/clip-feedback-keyboard.ts and the callback dispatch of apps/bot/src/handlers.ts:
    what each button's text carries, and which handler gets it back. */
module Callbacks {
  import opened Wrappers

  /******* split(":") *******/

  predicate NoColon(s: string) {
    ':' !in s
  }

  function Split(s: string): (r: seq<string>)
    ensures |r| > 0
  {
    if s == "" then [""]
    else
      var rest := Split(s[1..]);
      if s[0] == ':' then [""] + rest else [[s[0]] + rest[0]] + rest[1..]
  }

  function Join(parts: seq<string>): string
    requires |parts| > 0
  {
    if |parts| == 1 then parts[0] else parts[0] + ":" + Join(parts[1..])
  }

  /** Splitting loses nothing ... */
  lemma {:induction false} JoinOfSplit(s: string)
    ensures Join(Split(s)) == s
  {
    if s != "" {
      JoinOfSplit(s[1..]);
      var rest := Split(s[1..]);
      if s[0] == ':' {
        assert ([""] + rest)[1..] == rest;
      } else {
        assert ([[s[0]] + rest[0]] + rest[1..])[1..] == rest[1..];
      }
    }
  }

  /** ... and cuts where the colons are. */
  lemma {:induction false} SplitAtColon(a: string, rest: string)
    requires NoColon(a)
    ensures Split(a + ":" + rest) == [a] + Split(rest)
  {
    var s := a + ":" + rest;
    if a == "" {
      assert s[1..] == rest;
    } else {
      assert s[1..] == a[1..] + ":" + rest;
      SplitAtColon(a[1..], rest);
      assert ([a[1..]] + Split(rest))[1..] == Split(rest);
      assert [a[0]] + a[1..] == a;
    }
  }

  lemma {:induction false} SplitPlain(a: string)
    requires NoColon(a)
    ensures Split(a) == [a]
  {
    if a != "" {
      SplitPlain(a[1..]);
      assert [a[0]] + a[1..] == a;
    }
  }

  lemma SplitThree(a: string, b: string, c: string)
    requires NoColon(a) && NoColon(b) && NoColon(c)
    ensures Split(a + ":" + b + ":" + c) == [a, b, c]
  {
    assert a + ":" + b + ":" + c == a + ":" + (b + ":" + c);
    SplitAtColon(a, b + ":" + c);
    SplitAtColon(b, c);
    SplitPlain(c);
  }

  lemma ThreePartsJoin(s: string)
    requires |Split(s)| == 3
    ensures s == Split(s)[0] + ":" + Split(s)[1] + ":" + Split(s)[2]
  {
    JoinOfSplit(s);
    var p := Split(s);
    assert Join(p) == p[0] + ":" + Join(p[1..]);
    assert Join(p[1..]) == p[1] + ":" + Join(p[1..][1..]);
    assert p[0] + ":" + (p[1] + ":" + p[2]) == p[0] + ":" + p[1] + ":" + p[2];
  }

  /******* Feedback *******/

  datatype Verdict = AS_IS | EDIT | NO
  datatype FeedbackReason = BORING | CUTOFF | FRAMING | SUBS | QUALITY

  function VerdictCode(v: Verdict): string {
    match v
    case AS_IS => "a"
    case EDIT => "e"
    case NO => "n"
  }

  function ReasonCode(r: FeedbackReason): string {
    match r
    case BORING => "1"
    case CUTOFF => "2"
    case FRAMING => "3"
    case SUBS => "4"
    case QUALITY => "5"
  }

  /** The names every plain object inherits. A lookup by index finds them too. */
  const INHERITED: set<string> := {
    "constructor", "hasOwnProperty", "isPrototypeOf", "propertyIsEnumerable", "toLocaleString", "toString", "valueOf",
    "__proto__", "__defineGetter__", "__defineSetter__", "__lookupGetter__", "__lookupSetter__"
  }

  /** table[code]: an entry, something truthy from the prototype, or undefined. */
  datatype Looked<T> = Own(value: T) | Prototype(name: string) | Undefined

  function Missing<T>(code: string): Looked<T> {
    if code in INHERITED then Prototype(code) else Undefined
  }

  function CodeToVerdict(code: string): Looked<Verdict> {
    match code
    case "a" => Own(AS_IS)
    case "e" => Own(EDIT)
    case "n" => Own(NO)
    case _ => Missing(code)
  }

  function CodeToReason(code: string): Looked<FeedbackReason> {
    match code
    case "1" => Own(BORING)
    case "2" => Own(CUTOFF)
    case "3" => Own(FRAMING)
    case "4" => Own(SUBS)
    case "5" => Own(QUALITY)
    case _ => Missing(code)
  }

  datatype FeedbackCallback =
    | VerdictCallback(verdict: Looked<Verdict>, clipId: string)
    | ReasonCallback(reason: Looked<FeedbackReason>, clipId: string)

  function EncodeVerdict(v: Verdict, clipId: string): string {
    "fb:" + VerdictCode(v) + ":" + clipId
  }

  function EncodeReason(r: FeedbackReason, clipId: string): string {
    "fr:" + ReasonCode(r) + ":" + clipId
  }

  function ParseFeedback(data: string): Option<FeedbackCallback> {
    var parts := Split(data);
    if |parts| != 3 || parts[2] == "" then None
    else if parts[0] == "fb" then
      var v := CodeToVerdict(parts[1]);
      if v.Undefined? then None else Some(VerdictCallback(v, parts[2]))
    else if parts[0] == "fr" then
      var r := CodeToReason(parts[1]);
      if r.Undefined? then None else Some(ReasonCallback(r, parts[2]))
    else None
  }

  /** What encoding a parsed callback gives; a prototype member has no code. */
  function Reencode(c: FeedbackCallback): string {
    match c
    case VerdictCallback(v, clipId) => "fb:" + (if v.Own? then VerdictCode(v.value) else "undefined") + ":" + clipId
    case ReasonCallback(r, clipId) => "fr:" + (if r.Own? then ReasonCode(r.value) else "undefined") + ":" + clipId
  }

  predicate KnownCode(c: FeedbackCallback) {
    match c
    case VerdictCallback(v, _) => v.Own?
    case ReasonCallback(r, _) => r.Own?
  }

  lemma VerdictTable(v: Verdict)
    ensures NoColon(VerdictCode(v)) && CodeToVerdict(VerdictCode(v)) == Own(v)
  {
  }

  lemma ReasonTable(r: FeedbackReason)
    ensures NoColon(ReasonCode(r)) && CodeToReason(ReasonCode(r)) == Own(r)
  {
  }

  lemma CodeTables(code: string)
    ensures CodeToVerdict(code).Own? ==> VerdictCode(CodeToVerdict(code).value) == code
    ensures CodeToReason(code).Own? ==> ReasonCode(CodeToReason(code).value) == code
    ensures CodeToVerdict(code).Prototype? ==> code in INHERITED
    ensures CodeToReason(code).Prototype? ==> code in INHERITED
  {
  }

  lemma {:induction false} PartsHaveNoColon(s: string)
    ensures forall i :: 0 <= i < |Split(s)| ==> NoColon(Split(s)[i])
  {
    if s != "" {
      PartsHaveNoColon(s[1..]);
    }
  }

  /** The clip id is the third part exactly when it has no colon of its own. */
  lemma SplitPayload(prefix: string, code: string, clipId: string)
    requires NoColon(prefix) && NoColon(code)
    ensures Split(prefix + ":" + code + ":" + clipId) == [prefix, code] + Split(clipId)
    ensures |Split(clipId)| == 1 <==> NoColon(clipId)
    ensures NoColon(clipId) ==> Split(clipId) == [clipId]
  {
    hide Split;
    assert prefix + ":" + code + ":" + clipId == prefix + ":" + (code + ":" + clipId);
    SplitAtColon(prefix, code + ":" + clipId);
    SplitAtColon(code, clipId);
    PartsHaveNoColon(clipId);
    JoinOfSplit(clipId);
    if NoColon(clipId) {
      SplitPlain(clipId);
    }
  }

  /** Decoding undoes encoding exactly for the clip ids that are not empty and have no colon. */
  lemma VerdictRoundTrip(v: Verdict, clipId: string)
    ensures ParseFeedback(EncodeVerdict(v, clipId)) == Some(VerdictCallback(Own(v), clipId)) <==>
      clipId != "" && NoColon(clipId)
  {
    VerdictTable(v);
    SplitPayload("fb", VerdictCode(v), clipId);
    assert EncodeVerdict(v, clipId) == "fb" + ":" + VerdictCode(v) + ":" + clipId;
  }

  lemma ReasonRoundTrip(r: FeedbackReason, clipId: string)
    ensures ParseFeedback(EncodeReason(r, clipId)) == Some(ReasonCallback(Own(r), clipId)) <==>
      clipId != "" && NoColon(clipId)
  {
    ReasonTable(r);
    SplitPayload("fr", ReasonCode(r), clipId);
    assert EncodeReason(r, clipId) == "fr" + ":" + ReasonCode(r) + ":" + clipId;
  }

  /** Encoding undoes decoding exactly when the code is one of the table's own. The parser promises
      null for an unknown code, but accepts the names an object inherits. */
  lemma ReencodeIsExactUnlessInherited(data: string)
    requires ParseFeedback(data).Some?
    ensures Reencode(ParseFeedback(data).value) == data <==> KnownCode(ParseFeedback(data).value)
  {
    hide Split, Join, CodeToVerdict, CodeToReason, VerdictCode, ReasonCode, Reencode;
    var parts := Split(data);
    var callback := ParseFeedback(data).value;
    CodeTables(parts[1]);
    ThreePartsJoin(data);
    match callback {
      case VerdictCallback(v, clipId) => ReencodeVerdict(v, parts[1], clipId);
      case ReasonCallback(r, clipId) => ReencodeReason(r, parts[1], clipId);
    }
  }

  lemma ReencodeVerdict(v: Looked<Verdict>, code: string, clipId: string)
    requires v.Own? ==> VerdictCode(v.value) == code
    requires v.Prototype? ==> code in INHERITED
    requires !v.Undefined?
    ensures Reencode(VerdictCallback(v, clipId)) == "fb" + ":" + code + ":" + clipId <==> v.Own?
  {
    hide VerdictCode;
    CodeMatters("fb", code, clipId);
    assert "fb" + ":" == "fb:";
  }

  lemma ReencodeReason(r: Looked<FeedbackReason>, code: string, clipId: string)
    requires r.Own? ==> ReasonCode(r.value) == code
    requires r.Prototype? ==> code in INHERITED
    requires !r.Undefined?
    ensures Reencode(ReasonCallback(r, clipId)) == "fr" + ":" + code + ":" + clipId <==> r.Own?
  {
    hide ReasonCode;
    CodeMatters("fr", code, clipId);
    assert "fr" + ":" == "fr:";
  }

  lemma CodeMatters(prefix: string, code: string, clipId: string)
    ensures prefix + ":" + code + ":" + clipId == prefix + ":" + "undefined" + ":" + clipId <==> code == "undefined"
    ensures "undefined" !in INHERITED
  {
    var a, b := prefix + ":" + code + ":" + clipId, prefix + ":" + "undefined" + ":" + clipId;
    if a == b {
      assert |code| == |"undefined"|;
      assert a[|prefix| + 1..|prefix| + 1 + |code|] == code;
      assert b[|prefix| + 1..|prefix| + 1 + |code|] == "undefined";
    }
  }

  lemma InheritedCodeIsAccepted(clipId: string)
    requires clipId != "" && NoColon(clipId)
    ensures ParseFeedback("fb:constructor:" + clipId) == Some(VerdictCallback(Prototype("constructor"), clipId))
  {
    SplitThree("fb", "constructor", clipId);
    assert "fb:constructor:" + clipId == "fb" + ":" + "constructor" + ":" + clipId;
  }

  /******* Every button *******/

  datatype Plan = STARTER | PLUS | MAX
  datatype Cycle = WEEKLY | MONTHLY
  datatype Locale = En | Ru | Uk | Es | Pt | Id | Ar

  function PlanName(p: Plan): string {
    match p
    case STARTER => "STARTER"
    case PLUS => "PLUS"
    case MAX => "MAX"
  }

  function CycleName(c: Cycle): string {
    match c
    case WEEKLY => "WEEKLY"
    case MONTHLY => "MONTHLY"
  }

  function LocaleCode(l: Locale): string {
    match l
    case En => "en"
    case Ru => "ru"
    case Uk => "uk"
    case Es => "es"
    case Pt => "pt"
    case Id => "id"
    case Ar => "ar"
  }

  /** What a handler is called with. */
  datatype Route =
    | Subscribe(plan: Plan, cycle: Cycle)
    | Resend(jobId: string)
    | Feedback(callback: FeedbackCallback)
    | Lang(locale: Locale)
    | SubtitlesToggle
    | PlansOpen
    | Ignored

  function ParsePlan(s: string): Option<Plan> {
    if s == "STARTER" then Some(STARTER) else if s == "PLUS" then Some(PLUS) else if s == "MAX" then Some(MAX) else None
  }

  function ParseCycle(s: string): Option<Cycle> {
    if s == "WEEKLY" then Some(WEEKLY) else if s == "MONTHLY" then Some(MONTHLY) else None
  }

  /** Only Starter is sold by the week. */
  predicate Sold(p: Plan, c: Cycle) {
    c == MONTHLY || p == STARTER
  }

  function ParseSub(data: string): Option<(Plan, Cycle)> {
    var parts := Split(data);
    if !("sub:" <= data) || |parts| != 3 then None
    else
      var plan, cycle := ParsePlan(parts[1]), ParseCycle(parts[2]);
      if plan.None? || cycle.None? || !Sold(plan.value, cycle.value) then None else Some((plan.value, cycle.value))
  }

  function ParseLocale(s: string): Option<Locale> {
    match s
    case "en" => Some(En)
    case "ru" => Some(Ru)
    case "uk" => Some(Uk)
    case "es" => Some(Es)
    case "pt" => Some(Pt)
    case "id" => Some(Id)
    case "ar" => Some(Ar)
    case _ => None
  }

  function ParseLang(data: string): Option<Locale> {
    if "lang_" <= data then ParseLocale(data[5..]) else None
  }

  /** The order of handleCallbackQuery: the four prefixes, then the language, then the literals. */
  function Dispatch(data: string): Route {
    if "sub:" <= data then
      var sub := ParseSub(data);
      if sub.Some? then Subscribe(sub.value.0, sub.value.1) else Ignored
    else if "resend:" <= data then Resend(data[7..])
    else if "fb:" <= data || "fr:" <= data then
      var cb := ParseFeedback(data);
      if cb.Some? then Feedback(cb.value) else Ignored
    else
      var lang := ParseLang(data);
      if lang.Some? then Lang(lang.value)
      else if data == "subs_toggle" then SubtitlesToggle
      else if data == "plans:open" then PlansOpen
      else Ignored
  }

  /** The buttons the bot puts in a chat. */
  datatype Button =
    | BuyButton(plan: Plan, cycle: Cycle)
    | ResendButton(jobId: string)
    | VerdictButton(verdict: Verdict, clipId: string)
    | ReasonButton(reason: FeedbackReason, clipId: string)
    | LangButton(locale: Locale)
    | SubtitlesButton
    | PlansButton

  predicate Emitted(b: Button) {
    match b
    case BuyButton(plan, cycle) => Sold(plan, cycle)
    case VerdictButton(_, clipId) => clipId != "" && NoColon(clipId)
    case ReasonButton(_, clipId) => clipId != "" && NoColon(clipId)
    case _ => true
  }

  function CallbackData(b: Button): string {
    match b
    case BuyButton(plan, cycle) => "sub:" + PlanName(plan) + ":" + CycleName(cycle)
    case ResendButton(jobId) => "resend:" + jobId
    case VerdictButton(verdict, clipId) => EncodeVerdict(verdict, clipId)
    case ReasonButton(reason, clipId) => EncodeReason(reason, clipId)
    case LangButton(locale) => "lang_" + LocaleCode(locale)
    case SubtitlesButton => "subs_toggle"
    case PlansButton => "plans:open"
  }

  function RouteOf(b: Button): Route {
    match b
    case BuyButton(plan, cycle) => Subscribe(plan, cycle)
    case ResendButton(jobId) => Resend(jobId)
    case VerdictButton(verdict, clipId) => Feedback(VerdictCallback(Own(verdict), clipId))
    case ReasonButton(reason, clipId) => Feedback(ReasonCallback(Own(reason), clipId))
    case LangButton(locale) => Lang(locale)
    case SubtitlesButton => SubtitlesToggle
    case PlansButton => PlansOpen
  }

  /** A text that differs from a prefix in one place does not start with it. */
  lemma NotPrefix(prefix: string, s: string, i: nat)
    requires i < |prefix| && i < |s| && prefix[i] != s[i]
    ensures !(prefix <= s)
  {
  }

  lemma PrefixOf(prefix: string, rest: string)
    ensures prefix <= prefix + rest && (prefix + rest)[|prefix|..] == rest
    ensures forall i :: 0 <= i < |prefix| ==> (prefix + rest)[i] == prefix[i]
  {
  }

  lemma SubRoundTrip(plan: Plan, cycle: Cycle)
    requires Sold(plan, cycle)
    ensures Dispatch(CallbackData(BuyButton(plan, cycle))) == Subscribe(plan, cycle)
  {
    var data := CallbackData(BuyButton(plan, cycle));
    PlanTable(plan);
    CycleTable(cycle);
    SplitThree("sub", PlanName(plan), CycleName(cycle));
    assert data == "sub" + ":" + PlanName(plan) + ":" + CycleName(cycle);
    PrefixOf("sub:", PlanName(plan) + ":" + CycleName(cycle));
    assert data == "sub:" + (PlanName(plan) + ":" + CycleName(cycle));
  }

  lemma PlanTable(p: Plan)
    ensures NoColon(PlanName(p)) && ParsePlan(PlanName(p)) == Some(p)
  {
  }

  lemma CycleTable(c: Cycle)
    ensures NoColon(CycleName(c)) && ParseCycle(CycleName(c)) == Some(c)
  {
  }

  lemma ResendRoundTrip(jobId: string)
    ensures Dispatch("resend:" + jobId) == Resend(jobId)
  {
  }

  lemma FeedbackReaches(prefix: string, rest: string)
    requires prefix in {"fb:", "fr:"}
    ensures var cb := ParseFeedback(prefix + rest);
            Dispatch(prefix + rest) == if cb.Some? then Feedback(cb.value) else Ignored
  {
  }

  lemma LangRoundTrip(l: Locale)
    ensures Dispatch("lang_" + LocaleCode(l)) == Lang(l)
  {
  }

  /** "subs_toggle" begins like a subscription callback and parts from it at the fourth character. */
  lemma LiteralsReach()
    ensures Dispatch("subs_toggle") == SubtitlesToggle && Dispatch("plans:open") == PlansOpen
  {
    NotPrefix("sub:", "subs_toggle", 3);
    NotPrefix("sub:", "plans:open", 0);
  }

  /** Every button's text reaches its own handler, and no other, with the payload it was made from. */
  lemma DispatchUndoesEncoding(b: Button)
    requires Emitted(b)
    ensures Dispatch(CallbackData(b)) == RouteOf(b)
  {
    match b {
      case BuyButton(plan, cycle) => SubRoundTrip(plan, cycle);
      case ResendButton(jobId) => ResendRoundTrip(jobId);
      case VerdictButton(verdict, clipId) =>
        VerdictRoundTrip(verdict, clipId);
        FeedbackReaches("fb:", VerdictCode(verdict) + ":" + clipId);
        assert EncodeVerdict(verdict, clipId) == "fb:" + (VerdictCode(verdict) + ":" + clipId);
      case ReasonButton(reason, clipId) =>
        ReasonRoundTrip(reason, clipId);
        FeedbackReaches("fr:", ReasonCode(reason) + ":" + clipId);
        assert EncodeReason(reason, clipId) == "fr:" + (ReasonCode(reason) + ":" + clipId);
      case LangButton(locale) => LangRoundTrip(locale);
      case SubtitlesButton => LiteralsReach();
      case PlansButton => LiteralsReach();
    }
  }

  /** So two buttons with the same text are the same button. */
  lemma CallbackDataIsInjective(a: Button, b: Button)
    requires Emitted(a) && Emitted(b) && CallbackData(a) == CallbackData(b)
    ensures a == b
  {
    DispatchUndoesEncoding(a);
    DispatchUndoesEncoding(b);
  }

  /******* The other way round *******/

  /** What stands before the first colon. */
  lemma FirstPart(data: string, prefix: string, first: string, rest: string)
    requires NoColon(prefix) && NoColon(first)
    requires prefix + ":" <= data && data == first + ":" + rest
    ensures first == prefix
  {
    assert data[|prefix|] == ':' && data[|first|] == ':';
    assert data[..|prefix|] == prefix && data[..|first|] == first;
    assert forall i :: 0 <= i < |first| ==> first[i] == data[i];
    assert forall i :: 0 <= i < |prefix| ==> prefix[i] == data[i];
  }

  lemma SubscribeIsAButton(data: string, plan: Plan, cycle: Cycle)
    requires Dispatch(data) == Subscribe(plan, cycle)
    ensures CallbackData(BuyButton(plan, cycle)) == data && (cycle == MONTHLY || plan == STARTER)
  {
    hide Split;
    var parts := Split(data);
    ThreePartsJoin(data);
    PartsHaveNoColon(data);
    assert data == parts[0] + ":" + (parts[1] + ":" + parts[2]);
    FirstPart(data, "sub", parts[0], parts[1] + ":" + parts[2]);
    assert "sub" + ":" + parts[1] + ":" + parts[2] == "sub:" + parts[1] + ":" + parts[2];
  }

  lemma FeedbackIsAButton(data: string, c: FeedbackCallback) returns (b: Button)
    requires Dispatch(data) == Feedback(c) && KnownCode(c)
    ensures Emitted(b) && CallbackData(b) == data && RouteOf(b) == Feedback(c)
  {
    hide Split, CodeToVerdict, CodeToReason;
    ReencodeIsExactUnlessInherited(data);
    PartsHaveNoColon(data);
    match c {
      case VerdictCallback(v, clipId) => b := VerdictButton(v.value, clipId);
      case ReasonCallback(r, clipId) => b := ReasonButton(r.value, clipId);
    }
  }

  lemma LocaleTable(s: string)
    ensures ParseLocale(s).Some? ==> LocaleCode(ParseLocale(s).value) == s
  {
  }

  /** Nothing but a button's own text reaches a handler, the inherited codes excepted: every other text is
      ignored. A plan that is not sold is not a button. */
  lemma RoutedIsAButton(data: string) returns (b: Button)
    requires Dispatch(data) != Ignored
    requires Dispatch(data).Feedback? ==> KnownCode(Dispatch(data).callback)
    ensures CallbackData(b) == data && RouteOf(b) == Dispatch(data)
    ensures b.BuyButton? ==> b.cycle == MONTHLY || b.plan == STARTER
    ensures b.VerdictButton? ==> b.clipId != "" && NoColon(b.clipId)
    ensures b.ReasonButton? ==> b.clipId != "" && NoColon(b.clipId)
  {
    match Dispatch(data) {
      case Subscribe(plan, cycle) =>
        SubscribeIsAButton(data, plan, cycle);
        b := BuyButton(plan, cycle);
      case Resend(jobId) =>
        b := ResendButton(jobId);
        assert data == "resend:" + data[7..];
      case Feedback(c) => b := FeedbackIsAButton(data, c);
      case Lang(l) =>
        LocaleTable(data[5..]);
        b := LangButton(l);
        assert data == "lang_" + data[5..];
      case SubtitlesToggle => b := SubtitlesButton;
      case PlansOpen => b := PlansButton;
    }
  }
}
