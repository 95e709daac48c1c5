/**
 * The migration plan of the resources matched row by row
 * (packages/cli/src/plan.ts, `buildPlan`) and what applying it sends
 * (packages/cli/src/apply.ts): planning again after a round creates nothing,
 * and after a second round changes nothing. The target stores what it is
 * sent, and lists what it stores last.
 */
module Plan {
  import opened Common
  import opened Clash
  import opened Matching
  import opened Settling
  import MergeTags

  // ---- Properties ----

  /** `numeric` is the property's type: a number, or else a string. */
  datatype Property = Property(key: string, numeric: bool)

  /** A property whose type differs is left for the user; nothing else of it is compared. */
  function Properties(): Kind<Property, Property> {
    Kind(s => false, s => None, (s: Property) => s.key, r => None, (r: Property) => r.key,
         (s: Property) => s, (s, r) => false, (s, r, now) => now)
  }

  // ---- Topics ----

  datatype Topic = Topic(name: string, description: Option<string>, optIn: bool)

  function OrEmpty(text: Option<string>): string { if text.Some? then text.value else "" }

  function NonEmpty(text: Option<string>): Option<string> { if text == Some("") then None else text }

  function TopicRow(s: Topic): Topic { s.(description := NonEmpty(s.description)) }

  function TopicPatch(s: Topic, r: Topic, now: Topic): Topic { now.(description := Some(OrEmpty(s.description))) }

  function Topics(): Kind<Topic, Topic> {
    Kind(s => false, s => None, (s: Topic) => s.name, r => None, (r: Topic) => r.name,
         TopicRow, (s: Topic, r: Topic) => OrEmpty(s.description) != OrEmpty(r.description), TopicPatch)
  }

  // ---- Segments ----

  /** The filter is the translated one, as canonical text; none when there is none or it does not translate. */
  datatype Segment = Segment(name: string, filter: Option<string>)

  function SegmentPatch(s: Segment, r: Segment, now: Segment): Segment { now.(filter := s.filter) }

  function Segments(): Kind<Segment, Segment> {
    Kind(s => false, s => None, (s: Segment) => s.name, r => None, (r: Segment) => r.name,
         (s: Segment) => s, (s: Segment, r: Segment) => s.filter.Some? && s.filter != r.filter, SegmentPatch)
  }

  // ---- Webhooks ----

  datatype Webhook = Webhook(endpoint: string, events: seq<string>, status: string)

  const TARGET_WEBHOOK_EVENTS: seq<string> := [
    "email.scheduled", "email.sent", "email.delivered", "email.delivery_delayed", "email.bounced", "email.complained",
    "email.failed", "email.suppressed", "email.opened", "email.clicked", "email.received",
    "contact.created", "contact.updated", "contact.deleted", "suppression.added", "suppression.removed",
    "inbox.created", "inbox.updated", "inbox.deleted", "inbox.thread.created", "inbox.thread.folder.updated",
    "inbox.thread.labels.updated", "inbox.email.received", "inbox.email.sent", "inbox.draft.created",
    "inbox.draft.updated", "inbox.draft.sent", "inbox.draft.deleted"
  ]

  /** The events that are, or are not, among those known, each once, in the order given. */
  function Among(events: seq<string>, known: seq<string>, wanted: bool): seq<string> {
    if events == [] then [] else
      var front := Among(events[..|events| - 1], known, wanted);
      var e := events[|events| - 1];
      if (e in known) == wanted then AddOnce(front, e) else front
  }

  method TranslateWebhookEvents(events: seq<string>, known: seq<string>)
      returns (kept: seq<string>, dropped: seq<string>)
    ensures kept == Among(events, known, true) && dropped == Among(events, known, false)
  {
    kept, dropped := [], [];
    for n := 0 to |events|
      invariant kept == Among(events[..n], known, true) && dropped == Among(events[..n], known, false)
    {
      assert events[..n + 1][..n] == events[..n];
      if events[n] in known { kept := AddOnce(kept, events[n]); } else { dropped := AddOnce(dropped, events[n]); }
    }
    assert events[..|events|] == events;
  }

  ghost predicate Distinct(xs: seq<string>) { forall i, j | 0 <= i < j < |xs| :: xs[i] != xs[j] }

  /** Every event is kept once or dropped once, as the target knows it or not. */
  lemma {:induction false} AmongIs(events: seq<string>, known: seq<string>, wanted: bool)
    ensures Distinct(Among(events, known, wanted))
    ensures forall e :: e in Among(events, known, wanted) <==> e in events && ((e in known) == wanted)
  {
    if events != [] {
      var n := |events| - 1;
      AmongIs(events[..n], known, wanted);
      assert events == events[..n] + [events[n]];
    }
  }

  /** They stand in the order they first appear: more events only add to the end. */
  lemma {:induction false} AmongGrows(events: seq<string>, known: seq<string>, wanted: bool, n: nat)
    requires n <= |events|
    ensures Among(events[..n], known, wanted) <= Among(events, known, wanted)
  {
    if n == |events| {
      assert events[..n] == events;
    } else {
      var front := events[..|events| - 1];
      AmongGrows(front, known, wanted, n);
      assert front[..n] == events[..n];
    }
  }

  function Kept(s: Webhook): seq<string> { Among(s.events, TARGET_WEBHOOK_EVENTS, true) }

  predicate SameSet(a: seq<string>, b: seq<string>) { |a| == |b| && forall x | x in a :: x in b }

  /** The comparison of two event lists is exact as long as the target's has no repeat. */
  lemma SameSetExact(a: seq<string>, b: seq<string>)
    requires Distinct(a) && Distinct(b)
    ensures SameSet(a, b) <==> forall x :: x in a <==> x in b
  {
    SizeOfDistinct(a);
    SizeOfDistinct(b);
    if SameSet(a, b) {
      assert ToSet(a) <= ToSet(b);
      SameSize(ToSet(a), ToSet(b));
      assert forall x :: x in b <==> x in ToSet(b);
      assert forall x :: x in a <==> x in ToSet(a);
    }
    if forall x :: x in a <==> x in b { assert ToSet(a) == ToSet(b); }
  }

  function ToSet(a: seq<string>): set<string> { set x | x in a }

  lemma {:induction false} SizeOfDistinct(a: seq<string>)
    requires Distinct(a)
    ensures |ToSet(a)| == |a|
  {
    if a != [] {
      var n := |a| - 1;
      SizeOfDistinct(a[..n]);
      assert a == a[..n] + [a[n]];
      assert ToSet(a) == ToSet(a[..n]) + {a[n]};
    }
  }

  lemma SameSize(a: set<string>, b: set<string>)
    requires a <= b && |a| == |b|
    ensures a == b
  {
    assert b == a + (b - a);
  }

  predicate StatusDiffers(s: Webhook, r: Webhook) {
    (s.status == "enabled" || s.status == "disabled") && s.status != r.status
  }

  function WebhookRow(s: Webhook): Webhook { Webhook(s.endpoint, Kept(s), "enabled") }

  predicate WebhookDiffers(s: Webhook, r: Webhook) { !SameSet(r.events, Kept(s)) || StatusDiffers(s, r) }

  function WebhookPatch(s: Webhook, r: Webhook, now: Webhook): Webhook {
    var events := if SameSet(r.events, Kept(s)) then now else now.(events := Kept(s));
    if StatusDiffers(s, r) then events.(status := s.status) else events
  }

  function Webhooks(): Kind<Webhook, Webhook> {
    Kind((s: Webhook) => Kept(s) == [], s => None, (s: Webhook) => s.endpoint, r => None, (r: Webhook) => r.endpoint,
         WebhookRow, WebhookDiffers, WebhookPatch)
  }

  // ---- Templates ----

  datatype Template = Template(name: string, alias: Option<string>, subject: Option<string>, html: Option<string>,
      text: Option<string>)

  function Retagged(text: Option<string>): Option<string> {
    if NonEmpty(text).None? then None else Some(MergeTags.Html(text.value))
  }

  /** The fields the plan wants on the target: the alias as it is, the bodies with their merge tags rewritten. */
  function Desired(s: Template): Template {
    Template(s.name, s.alias, Retagged(s.subject), Retagged(s.html), Retagged(s.text))
  }

  /** An empty alias is not sent with a create. */
  function TemplateRow(s: Template): Template { Desired(s).(alias := NonEmpty(s.alias)) }

  /** Only the fields that differed when the plan was made are sent. */
  function TemplatePatch(s: Template, r: Template, now: Template): Template {
    var d := Desired(s);
    Template(if d.name != r.name then d.name else now.name, if d.alias != r.alias then d.alias else now.alias,
             if d.subject != r.subject then d.subject else now.subject, if d.html != r.html then d.html else now.html,
             if d.text != r.text then d.text else now.text)
  }

  /** An empty alias matches nothing. */
  function Templates(): Kind<Template, Template> {
    Kind((s: Template) => NonEmpty(s.html).None?, (s: Template) => NonEmpty(s.alias), (s: Template) => s.name,
         (r: Template) => NonEmpty(r.alias), (r: Template) => r.name,
         TemplateRow, (s: Template, r: Template) => Desired(s) != r, TemplatePatch)
  }

  // ---- Each resource converges ----

  lemma PropertiesLawful()
    ensures Lawful(Properties())
  {
  }

  lemma TopicsLawful()
    ensures Lawful(Topics())
  {
  }

  lemma SegmentsLawful()
    ensures Lawful(Segments())
  {
  }

  lemma WebhooksLawful()
    ensures Lawful(Webhooks())
  {
  }

  lemma TemplatesLawful()
    ensures Lawful(Templates())
  {
  }

  /** Without a second key, rows of different names cannot match one target row. */
  lemma NamesSuffice<S, R>(k: Kind<S, R>, rows: seq<R>, source: seq<S>)
    requires forall i | 0 <= i < |source| :: k.alias(source[i]).None?
    requires forall i, j | 0 <= i < j < |source| && !k.skips(source[i]) && !k.skips(source[j]) ::
               k.name(source[i]) != k.name(source[j])
    ensures Apart(k, rows, source)
  {
  }

  // ---- The whole account ----

  /** The source's rows, or the target's. */
  datatype Account = Account(
    properties: seq<Property>, topics: seq<Topic>, segments: seq<Segment>, webhooks: seq<Webhook>,
    templates: seq<Template>)

  datatype Plans = Plans(
    properties: seq<Action>, topics: seq<Action>, segments: seq<Action>, webhooks: seq<Action>, templates: seq<Action>)

  function PlanAll(target: Account, source: Account): Plans {
    Plans(Plan(Properties(), target.properties, source.properties), Plan(Topics(), target.topics, source.topics),
          Plan(Segments(), target.segments, source.segments), Plan(Webhooks(), target.webhooks, source.webhooks),
          Plan(Templates(), target.templates, source.templates))
  }

  /** Every create and update of the plan, applied. */
  function RoundAll(target: Account, source: Account): Account {
    Account(Round(Properties(), target.properties, source.properties), Round(Topics(), target.topics, source.topics),
            Round(Segments(), target.segments, source.segments), Round(Webhooks(), target.webhooks, source.webhooks),
            Round(Templates(), target.templates, source.templates))
  }

  method Migrate(target: Account, source: Account) returns (plans: Plans, after: Account)
    ensures plans == PlanAll(target, source) && after == RoundAll(target, source)
  {
    var properties := BuildPlan(Properties(), target.properties, source.properties);
    var topics := BuildPlan(Topics(), target.topics, source.topics);
    var segments := BuildPlan(Segments(), target.segments, source.segments);
    var webhooks := BuildPlan(Webhooks(), target.webhooks, source.webhooks);
    var templates := BuildPlan(Templates(), target.templates, source.templates);
    plans := Plans(properties, topics, segments, webhooks, templates);
    var properties' := ApplyRows(Properties(), target.properties, source.properties, properties);
    var topics' := ApplyRows(Topics(), target.topics, source.topics, topics);
    var segments' := ApplyRows(Segments(), target.segments, source.segments, segments);
    var webhooks' := ApplyRows(Webhooks(), target.webhooks, source.webhooks, webhooks);
    var templates' := ApplyRows(Templates(), target.templates, source.templates, templates);
    after := Account(properties', topics', segments', webhooks', templates');
  }

  ghost predicate NoCreates(p: Plans) {
    Create !in p.properties && Create !in p.topics && Create !in p.segments && Create !in p.webhooks
        && Create !in p.templates
  }

  ghost predicate Writes(plan: seq<Action>) { exists i | 0 <= i < |plan| :: plan[i].Create? || plan[i].Update? }

  ghost predicate NoWrites(p: Plans) {
    !Writes(p.properties) && !Writes(p.topics) && !Writes(p.segments) && !Writes(p.webhooks) && !Writes(p.templates)
  }

  /** Distinct keys, names and endpoints in the source. */
  ghost predicate NamesApart(source: Account) {
    && (forall i, j | 0 <= i < j < |source.properties| :: source.properties[i].key != source.properties[j].key)
    && (forall i, j | 0 <= i < j < |source.topics| :: source.topics[i].name != source.topics[j].name)
    && (forall i, j | 0 <= i < j < |source.segments| :: source.segments[i].name != source.segments[j].name)
    && (forall i, j | 0 <= i < j < |source.webhooks| :: source.webhooks[i].endpoint != source.webhooks[j].endpoint)
  }

  /** And templates that match distinct target rows. */
  ghost predicate ApartAll(target: Account, source: Account) {
    NamesApart(source) && Apart(Templates(), target.templates, source.templates)
  }

  lemma NoneCreated<S(!new), R(!new)>(k: Kind<S, R>, rows: seq<R>, source: seq<S>)
    requires Lawful(k) && Apart(k, rows, source)
    ensures Create !in Plan(k, Round(k, rows, source), source)
  {
    forall i | 0 <= i < |source| ensures !Plan(k, Round(k, rows, source), source)[i].Create? {
      NoCreatesAgain(k, rows, source, i);
    }
  }

  lemma NoneWritten<S(!new), R(!new)>(k: Kind<S, R>, rows: seq<R>, source: seq<S>)
    requires Lawful(k) && Apart(k, rows, source)
    ensures !Writes(Plan(k, Round(k, Round(k, rows, source), source), source))
    ensures var after := Round(k, Round(k, rows, source), source); Round(k, after, source) == after
  {
    TwoRoundsSettle(k, rows, source);
    SettledStays(k, Round(k, Round(k, rows, source), source), source);
  }

  lemma AllApart(target: Account, source: Account)
    requires NamesApart(source)
    ensures Apart(Properties(), target.properties, source.properties) && Apart(Topics(), target.topics, source.topics)
    ensures Apart(Segments(), target.segments, source.segments) && Apart(Webhooks(), target.webhooks, source.webhooks)
  {
    NamesSuffice(Properties(), target.properties, source.properties);
    NamesSuffice(Topics(), target.topics, source.topics);
    NamesSuffice(Segments(), target.segments, source.segments);
    NamesSuffice(Webhooks(), target.webhooks, source.webhooks);
  }

  /** Applying every create and update and planning again gives no creates. */
  lemma OneRoundCreatesAll(target: Account, source: Account)
    requires ApartAll(target, source)
    ensures NoCreates(PlanAll(RoundAll(target, source), source))
  {
    AllApart(target, source);
    PropertiesLawful();
    NoneCreated(Properties(), target.properties, source.properties);
    TopicsLawful();
    NoneCreated(Topics(), target.topics, source.topics);
    SegmentsLawful();
    NoneCreated(Segments(), target.segments, source.segments);
    WebhooksLawful();
    NoneCreated(Webhooks(), target.webhooks, source.webhooks);
    TemplatesLawful();
    NoneCreated(Templates(), target.templates, source.templates);
  }

  /** One further round, and the plan writes nothing: every later round leaves the target as it is. */
  lemma TwoRoundsWriteAll(target: Account, source: Account)
    requires ApartAll(target, source)
    ensures NoWrites(PlanAll(RoundAll(RoundAll(target, source), source), source))
    ensures var after := RoundAll(RoundAll(target, source), source); RoundAll(after, source) == after
  {
    AllApart(target, source);
    PropertiesLawful();
    NoneWritten(Properties(), target.properties, source.properties);
    TopicsLawful();
    NoneWritten(Topics(), target.topics, source.topics);
    SegmentsLawful();
    NoneWritten(Segments(), target.segments, source.segments);
    WebhooksLawful();
    NoneWritten(Webhooks(), target.webhooks, source.webhooks);
    TemplatesLawful();
    NoneWritten(Templates(), target.templates, source.templates);
  }

  /**
   * After two rounds every template with a body is on the target, field by
   * field: the subject and bodies with their merge tags rewritten, each in
   * its own place, and nothing where the source has nothing.
   */
  lemma TemplatesCarried(target: Account, source: Account, i: nat)
    requires ApartAll(target, source) && i < |source.templates|
    requires source.templates[i].html.Some? && source.templates[i].html.value != ""
    ensures var s := source.templates[i];
            exists r | r in RoundAll(RoundAll(target, source), source).templates ::
              && r.name == s.name && r.alias == s.alias && r.html == Some(MergeTags.Html(s.html.value))
              && r.subject == (if s.subject.None? || s.subject.value == "" then None
                               else Some(MergeTags.Html(s.subject.value)))
              && r.text == (if s.text.None? || s.text.value == "" then None else Some(MergeTags.Html(s.text.value)))
  {
    TemplatesLawful();
    TwoRoundsCarry(Templates(), target.templates, source.templates, i);
  }

  /** No row of the target has the name, or the first that has it is this one. */
  ghost predicate FirstCalled<R>(rows: seq<R>, name: R -> string, n: string, found: Option<R>) {
    match found
    case None => forall y | 0 <= y < |rows| :: name(rows[y]) != n
    case Some(r) => exists x | 0 <= x < |rows| ::
      rows[x] == r && name(r) == n && forall y | 0 <= y < x :: name(rows[y]) != n
  }

  /** What a round leaves of a source row that has no second key. */
  lemma LeftOfNamed<S(!new), R(!new)>(k: Kind<S, R>, rows: seq<R>, source: seq<S>, i: nat) returns (found: Option<R>)
    requires Lawful(k) && Apart(k, rows, source) && i < |source|
    requires !k.skips(source[i]) && k.alias(source[i]).None?
    ensures FirstCalled(rows, k.rowName, k.name(source[i]), found)
    ensures var s := source[i];
            (if found.None? then k.make(s)
             else if k.differs(s, found.value) then k.patch(s, found.value, found.value)
             else found.value) in Round(k, rows, source)
  {
    FoundAtHome(k, rows, source, i);
    var at := Match(k, rows, source[i]);
    FindNameIs(k, rows, k.name(source[i]), 0);
    found := if at.Some? then Some(rows[at.value]) else None;
  }

  /** After one round every property is there; one that was there before keeps its type. */
  lemma PropertiesCarried(target: Account, source: Account, i: nat) returns (found: Option<Property>)
    requires NamesApart(source) && i < |source.properties|
    ensures FirstCalled(target.properties, (r: Property) => r.key, source.properties[i].key, found)
    ensures exists r | r in RoundAll(target, source).properties ::
              && r.key == source.properties[i].key
              && r.numeric == (if found.Some? then found.value.numeric else source.properties[i].numeric)
  {
    AllApart(target, source);
    PropertiesLawful();
    found := LeftOfNamed(Properties(), target.properties, source.properties, i);
  }

  /** After one round every topic is there with its description; one that was there keeps its own default. */
  lemma TopicsCarried(target: Account, source: Account, i: nat) returns (found: Option<Topic>)
    requires NamesApart(source) && i < |source.topics|
    ensures FirstCalled(target.topics, (r: Topic) => r.name, source.topics[i].name, found)
    ensures var s := source.topics[i];
            exists r | r in RoundAll(target, source).topics ::
              && r.name == s.name
              && (if r.description.Some? then r.description.value else "")
                 == (if s.description.Some? then s.description.value else "")
              && r.optIn == (if found.Some? then found.value.optIn else s.optIn)
              && (found.None? && s.description == Some("") ==> r.description.None?)
  {
    AllApart(target, source);
    TopicsLawful();
    found := LeftOfNamed(Topics(), target.topics, source.topics, i);
  }

  /** After one round every segment is there with its filter; one without a filter leaves the target's. */
  lemma SegmentsCarried(target: Account, source: Account, i: nat) returns (found: Option<Segment>)
    requires NamesApart(source) && i < |source.segments|
    ensures FirstCalled(target.segments, (r: Segment) => r.name, source.segments[i].name, found)
    ensures var s := source.segments[i];
            exists r | r in RoundAll(target, source).segments ::
              && r.name == s.name
              && r.filter == (if s.filter.Some? || found.None? then s.filter else found.value.filter)
  {
    AllApart(target, source);
    SegmentsLawful();
    found := LeftOfNamed(Segments(), target.segments, source.segments, i);
  }

  /** No round writes a template without a body or a webhook without a known event; nothing else is left out. */
  lemma SkippedIff(target: Account, source: Account, i: nat)
    ensures var plans := PlanAll(target, source);
            && (i < |source.templates| ==>
                  (plans.templates[i] == Skip <==>
                   source.templates[i].html.None? || source.templates[i].html.value == ""))
            && (i < |source.webhooks| ==>
                  (plans.webhooks[i] == Skip <==>
                   forall e | e in source.webhooks[i].events :: e !in TARGET_WEBHOOK_EVENTS))
            && (i < |source.properties| ==> plans.properties[i] != Skip)
            && (i < |source.topics| ==> plans.topics[i] != Skip)
            && (i < |source.segments| ==> plans.segments[i] != Skip)
  {
    if i < |source.webhooks| {
      AmongIs(source.webhooks[i].events, TARGET_WEBHOOK_EVENTS, true);
      var kept := Kept(source.webhooks[i]);
      if kept != [] { assert kept[0] in kept; }
    }
  }

  /** A patch sends the fields that differed when it was worked out, and leaves the row's others alone. */
  lemma PatchSendsChanges(s: Template, r: Template, now: Template)
    ensures var after, subject, html, text :=
              TemplatePatch(s, r, now), Retagged(s.subject), Retagged(s.html), Retagged(s.text);
            && after.name == (if r.name == s.name then now.name else s.name)
            && after.alias == (if r.alias == s.alias then now.alias else s.alias)
            && after.subject == (if r.subject == subject then now.subject else subject)
            && after.html == (if r.html == html then now.html else html)
            && after.text == (if r.text == text then now.text else text)
  {
  }

  /** After two rounds every webhook with a known event is there, with those events and its status. */
  lemma WebhooksCarried(target: Account, source: Account, i: nat)
    requires ApartAll(target, source) && i < |source.webhooks| && Kept(source.webhooks[i]) != []
    ensures exists r | r in RoundAll(RoundAll(target, source), source).webhooks ::
              && r.endpoint == source.webhooks[i].endpoint && SameSet(r.events, Kept(source.webhooks[i]))
              && !StatusDiffers(source.webhooks[i], r)
  {
    AllApart(target, source);
    WebhooksLawful();
    TwoRoundsCarry(Webhooks(), target.webhooks, source.webhooks, i);
  }

  // ---- What the second round is for ----

  /** A created webhook needs the second round exactly when it is disabled at the source: it is created enabled. */
  lemma WebhookLags(s: Webhook)
    ensures WebhookDiffers(s, WebhookRow(s)) <==> s.status == "disabled"
  {
  }

  /** A created template needs it exactly when its alias is the empty string. */
  lemma TemplateLags(s: Template)
    ensures Desired(s) != TemplateRow(s) <==> s.alias == Some("")
  {
  }

  /** The second plan updates a webhook exactly when the first created it and the source has it disabled. */
  lemma SecondPlanUpdates(rows: seq<Webhook>, source: seq<Webhook>, i: nat)
    requires i < |source| && forall x, y | 0 <= x < y < |source| :: source[x].endpoint != source[y].endpoint
    ensures Plan(Webhooks(), Round(Webhooks(), rows, source), source)[i].Update? <==>
            Plan(Webhooks(), rows, source)[i].Create? && source[i].status == "disabled"
  {
    WebhooksLawful();
    NamesSuffice(Webhooks(), rows, source);
    NoCreatesAgain(Webhooks(), rows, source, i);
    if Plan(Webhooks(), rows, source)[i].Create? {
      FoundAtHome(Webhooks(), rows, source, i);
      WebhookLags(source[i]);
    }
  }

  // ---- Two templates on one target row ----

  lemma TemplatesFieldwise()
    ensures Fieldwise(Templates())
  {
  }

  /**
   * With distinct names and aliases, the plan after a round creates if and
   * only if a template without an alias shares its target row with another,
   * and no target row that no template matches bears its name.
   */
  lemma SecondPlanCreatesIff(rows: seq<Template>, source: seq<Template>)
    requires KeysApart(Templates(), source)
    ensures Create in Plan(Templates(), Round(Templates(), rows, source), source) <==>
            exists i: nat, j: nat, t: nat :: Orphans(Templates(), rows, source, i, j, t)
  {
    TemplatesLawful();
    TemplatesFieldwise();
    NextCreatesIff(Templates(), rows, source);
  }

  /**
   * Two templates on one target row are both updated there by every later
   * plan if and only if both have an alias and no target row that no template
   * matches bears the alias of the one, or its name before the shared row.
   */
  lemma PairFlipsForEverIff(rows: seq<Template>, source: seq<Template>, i: nat, j: nat, t: nat)
    requires KeysApart(Templates(), source) && Shares(Templates(), rows, source, i, j, t)
    ensures (forall n: nat | n > 0 :: BothUpdated(Templates(), rows, source, i, j, t, n)) <==>
            && NonEmpty(source[j].alias).Some?
            && NoFreeAlias(Templates(), rows, source, NonEmpty(source[i].alias))
            && NoFreeNameBefore(Templates(), rows, source, source[i].name, t)
  {
    TemplatesLawful();
    TemplatesFieldwise();
    FlipsForEverIff(Templates(), rows, source, i, j, t);
  }

  /** A template of a name, an alias and a body. */
  function Short(name: char, alias: char, body: char): Template {
    Template([name], Some([alias]), None, Some([body]), None)
  }

  lemma ShortKeys(a: Template, b: Template)
    requires a == Short('X', 'a', '1') && b == Short('Y', 'b', '2')
    ensures KeysApart(Templates(), [a, b]) && Live(Templates(), [a, b], 0) && Live(Templates(), [a, b], 1)
    ensures NonEmpty(a.alias) == Some(['a']) && NonEmpty(b.alias) == Some(['b'])
  {
    assert a.alias.value[0] == 'a' && b.alias.value[0] == 'b' && a.name[0] == 'X' && b.name[0] == 'Y';
    assert a.html.value[0] == '1' && b.html.value[0] == '2';
  }

  /** One row, with the alias of one template and the name of the other: every later plan updates it twice. */
  lemma NeverSettlesHere(n: nat)
    requires n > 0
    ensures var source := [Short('X', 'a', '1'), Short('Y', 'b', '2')];
            var rows := [Short('Y', 'a', '0')];
            && BothUpdated(Templates(), rows, source, 0, 1, 0, n)
            && !Settled(Templates(), Rounds(Templates(), rows, source, n), source)
  {
    var k, source, rows := Templates(), [Short('X', 'a', '1'), Short('Y', 'b', '2')], [Short('Y', 'a', '0')];
    ShortKeys(source[0], source[1]);
    assert rows[0].alias.value[0] == 'a' && rows[0].name[0] == 'Y';
    assert Flipping(k, rows, source, 0, 1, 0);
    FlippingMatches(k, rows, source, 0, 1, 0);
    assert ToRow(k, rows, source, 0, 0);
    PairFlipsForEverIff(rows, source, 0, 1, 0);
    NeverSettles(k, rows, source, 0, 1, 0, n);
  }

  /**
   * With another row of the one's name before it, the pair neither creates nor
   * flips for ever: it stands on two rows.
   */
  lemma ComesApartHere()
    ensures var source := [Short('X', 'a', '1'), Short('Y', 'b', '2')];
            var rows := [Short('X', 'c', '9'), Short('Y', 'a', '0')];
            var after := Round(Templates(), rows, source);
            && Shares(Templates(), rows, source, 0, 1, 1) && Create !in Plan(Templates(), after, source)
            && Match(Templates(), after, source[0]) == Some(0) && Match(Templates(), after, source[1]) == Some(1)
  {
    var k, source := Templates(), [Short('X', 'a', '1'), Short('Y', 'b', '2')];
    var rows := [Short('X', 'c', '9'), Short('Y', 'a', '0')];
    ShortKeys(source[0], source[1]);
    assert rows[0].alias.value[0] == 'c' && rows[0].name[0] == 'X';
    assert rows[1].alias.value[0] == 'a' && rows[1].name[0] == 'Y';
    assert k.rowAlias(rows[0]) == Some(['c']) && k.rowAlias(rows[1]) == Some(['a']);
    assert Match(k, rows, source[0]) == Some(1) && Match(k, rows, source[1]) == Some(1);
    assert Free(k, rows, source, 0) && k.rowName(rows[0]) == source[0].name;
    TemplatesLawful();
    TemplatesFieldwise();
    SecondPlanCreatesIff(rows, source);
    FoundBeside(k, rows, source);
  }

  /** Of two target rows, where the pair is found that shared the second. */
  lemma FoundBeside(k: Kind<Template, Template>, rows: seq<Template>, source: seq<Template>)
    requires Lawful(k) && Fieldwise(k) && KeysApart(k, source) && |rows| == |source| == 2
    requires Shares(k, rows, source, 0, 1, 1) && k.alias(source[1]).Some?
    requires Free(k, rows, source, 0) && k.rowName(rows[0]) == k.name(source[0])
    ensures Match(k, Round(k, rows, source), source[0]) == Some(0)
    ensures Match(k, Round(k, rows, source), source[1]) == Some(1)
  {
    NamedFoundByAlias(k, rows, source, 0, 1, 1);
    AliasedFound(k, rows, source, 0, 1, 1);
    BothUpdate(k, rows, source, 0, 1, 1);
    AppliedSize(k, rows, source, 2);
    assert Creates(Plan(k, rows, source), 0) == 0 && Creates(Plan(k, rows, source), 1) == 0;
  }

  // ---- When a migration settles ----

  function RoundsAll(target: Account, source: Account, n: nat): Account {
    if n == 0 then target else RoundAll(RoundsAll(target, source, n - 1), source)
  }

  ghost predicate AreRounds(target: Account, source: Account, n: nat, after: Account) {
    && after.properties == Rounds(Properties(), target.properties, source.properties, n)
    && after.topics == Rounds(Topics(), target.topics, source.topics, n)
    && after.segments == Rounds(Segments(), target.segments, source.segments, n)
    && after.webhooks == Rounds(Webhooks(), target.webhooks, source.webhooks, n)
    && after.templates == Rounds(Templates(), target.templates, source.templates, n)
  }

  lemma NoRound(target: Account, source: Account)
    ensures AreRounds(target, source, 0, target)
  {
  }

  lemma NextRound<S, R>(k: Kind<S, R>, rows: seq<R>, source: seq<S>, n: nat)
    ensures Rounds(k, rows, source, n + 1) == Round(k, Rounds(k, rows, source, n), source)
  {
  }

  lemma OneMoreRound(target: Account, source: Account, n: nat, after: Account)
    requires AreRounds(target, source, n, after)
    ensures AreRounds(target, source, n + 1, RoundAll(after, source))
  {
    NextRound(Properties(), target.properties, source.properties, n);
    NextRound(Topics(), target.topics, source.topics, n);
    NextRound(Segments(), target.segments, source.segments, n);
    NextRound(Webhooks(), target.webhooks, source.webhooks, n);
    NextRound(Templates(), target.templates, source.templates, n);
  }

  lemma {:induction false} RoundsAllAre(target: Account, source: Account, n: nat)
    ensures AreRounds(target, source, n, RoundsAll(target, source, n))
  {
    if n == 0 {
      NoRound(target, source);
    } else {
      RoundsAllAre(target, source, n - 1);
      OneMoreRound(target, source, n - 1, RoundsAll(target, source, n - 1));
    }
  }

  /** A resource without a second key settles in two rounds. */
  lemma NamedSettles<S(!new), R(!new)>(k: Kind<S, R>, rows: seq<R>, source: seq<S>, n: nat)
    requires Lawful(k) && Apart(k, rows, source) && n >= 2
    ensures Settled(k, Rounds(k, rows, source, n), source)
  {
    TwoRoundsSettle(k, rows, source);
    assert Rounds(k, rows, source, 0) == rows && Rounds(k, rows, source, 1) == Round(k, rows, source);
    SettledFrom(k, rows, source, 2, n);
  }

  lemma NamedSettleAll(target: Account, source: Account, n: nat)
    requires NamesApart(source) && n >= 2
    ensures Settled(Properties(), Rounds(Properties(), target.properties, source.properties, n), source.properties)
    ensures Settled(Topics(), Rounds(Topics(), target.topics, source.topics, n), source.topics)
    ensures Settled(Segments(), Rounds(Segments(), target.segments, source.segments, n), source.segments)
    ensures Settled(Webhooks(), Rounds(Webhooks(), target.webhooks, source.webhooks, n), source.webhooks)
  {
    AllApart(target, source);
    PropertiesLawful();
    NamedSettles(Properties(), target.properties, source.properties, n);
    TopicsLawful();
    NamedSettles(Topics(), target.topics, source.topics, n);
    SegmentsLawful();
    NamedSettles(Segments(), target.segments, source.segments, n);
    WebhooksLawful();
    NamedSettles(Webhooks(), target.webhooks, source.webhooks, n);
  }

  lemma SettledWritesNone<S, R>(k: Kind<S, R>, rows: seq<R>, source: seq<S>)
    ensures Settled(k, rows, source) <==> !Writes(Plan(k, rows, source))
  {
    var plan := Plan(k, rows, source);
    if !Writes(plan) {
      forall i | 0 <= i < |source| ensures plan[i].Skip? || plan[i].Same? {}
    }
  }

  lemma NoWritesIff(target: Account, source: Account)
    ensures NoWrites(PlanAll(target, source)) <==>
            && Settled(Properties(), target.properties, source.properties)
            && Settled(Topics(), target.topics, source.topics)
            && Settled(Segments(), target.segments, source.segments)
            && Settled(Webhooks(), target.webhooks, source.webhooks)
            && Settled(Templates(), target.templates, source.templates)
  {
    SettledWritesNone(Properties(), target.properties, source.properties);
    SettledWritesNone(Topics(), target.topics, source.topics);
    SettledWritesNone(Segments(), target.segments, source.segments);
    SettledWritesNone(Webhooks(), target.webhooks, source.webhooks);
    SettledWritesNone(Templates(), target.templates, source.templates);
  }

  /** The plan after n rounds writes nothing. */
  ghost predicate SettledAfter(target: Account, source: Account, n: nat) {
    NoWrites(PlanAll(RoundsAll(target, source, n), source))
  }

  lemma SettledAfterIff(target: Account, source: Account, n: nat)
    requires NamesApart(source)
    ensures var templates := Rounds(Templates(), target.templates, source.templates, n);
            var settled := Settled(Templates(), templates, source.templates);
            (SettledAfter(target, source, n) ==> settled) && (n >= 2 && settled ==> SettledAfter(target, source, n))
  {
    RoundsAllAre(target, source, n);
    NoWritesIff(RoundsAll(target, source, n), source);
    if n >= 2 { NamedSettleAll(target, source, n); }
  }

  /**
   * A migration onto a target whose templates have distinct aliases, from
   * distinct names and aliases, settles if and only if no two templates are
   * stuck on one target row; it has then settled after three rounds.
   */
  lemma MigrationSettlesIff(target: Account, source: Account)
    requires NamesApart(source) && KeysApart(Templates(), source.templates)
    requires AliasesApart(Templates(), target.templates)
    ensures (exists n: nat :: SettledAfter(target, source, n)) <==>
            !HasStuck(Templates(), target.templates, source.templates)
    ensures !HasStuck(Templates(), target.templates, source.templates) ==>
              forall n: nat | n >= 3 :: SettledAfter(target, source, n)
  {
    TemplatesLawful();
    TemplatesFieldwise();
    SettlesIff(Templates(), target.templates, source.templates);
    if n: nat :| SettledAfter(target, source, n) { SettledAfterIff(target, source, n); }
    if !HasStuck(Templates(), target.templates, source.templates) {
      forall n: nat | n >= 3 ensures SettledAfter(target, source, n) { SettledAfterIff(target, source, n); }
      assert SettledAfter(target, source, 3);
    }
  }

  /** Two templates of one name, without an alias, that want different things of it never let it settle. */
  lemma OneNameNeverSettles(target: Account, source: Account, i: nat, j: nat, n: nat)
    requires Live(Templates(), source.templates, i) && Live(Templates(), source.templates, j)
    requires var s, t := source.templates[i], source.templates[j];
             && NonEmpty(s.alias).None? && NonEmpty(t.alias).None? && s.name == t.name && Desired(s) != Desired(t)
    ensures !SettledAfter(target, source, n)
  {
    NoWritesIff(RoundsAll(target, source, n), source);
    SameNameNeverSettles(Templates(), RoundsAll(target, source, n).templates, source.templates, i, j);
  }
}
