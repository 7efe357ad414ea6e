/** Properties that relate several handler runs: the registry only grows, the row count
    tracks registrations, the stored kinds stay valid, and a registered slug travels the
    whole way from `/add` through the offer to the delivery. */
module Properties {
  import opened Wrappers
  import opened Registry
  import opened Auth
  import opened Patterns
  import opened Commands
  import opened Handlers

  /** A request once its listener has recognised it. */
  datatype Input =
    | StartInput(chatId: int, slug: Option<string>)
    | AddInput(chatId: int, userId: int, args: AddArgs)
    | StatusInput(chatId: int, userId: int)
    | HelpInput(chatId: int)
    | CallbackInput(query: Query)

  /** A request together with how the database behaves while it is handled. */
  datatype Request = Request(fault: Fault, input: Input)

  /** Routes a recognised request to its handler. */
  function Handle(s: Store, fault: Fault, input: Input): Step {
    match input
    case StartInput(c, slug) => Start(s, fault, c, slug)
    case AddInput(c, u, a) => Add(s, fault, c, u, a)
    case StatusInput(c, u) => Status(s, fault, c, u)
    case HelpInput(c) => Help(s, c)
    case CallbackInput(q) => Callback(s, fault, q)
  }

  /** Requests handled one after another, each to completion; the calls of all of them in order. */
  function Run(s: Store, rs: seq<Request>): Step
    decreases |rs|
  {
    if rs == [] then Step(s, [])
    else
      var first := Handle(s, rs[0].fault, rs[0].input);
      var rest := Run(first.store, rs[1..]);
      Step(rest.store, first.events + rest.events)
  }

  /** Number of "file added" confirmations among the calls. */
  function Registrations(es: seq<Event>): nat {
    if es == [] then 0
    else (if es[0].SendMessage? && es[0].reply.FileAdded? then 1 else 0) + Registrations(es[1..])
  }

  /** Number of media deliveries among the calls. */
  function Deliveries(es: seq<Event>): nat {
    if es == [] then 0 else (if es[0].IsDelivery() then 1 else 0) + Deliveries(es[1..])
  }

  lemma {:induction false} RegistrationsAppend(a: seq<Event>, b: seq<Event>)
    ensures Registrations(a + b) == Registrations(a) + Registrations(b)
    decreases |a|
  {
    if a != [] {
      assert (a + b)[1..] == a[1..] + b;
      RegistrationsAppend(a[1..], b);
    } else {
      assert a + b == b;
    }
  }

  lemma ExtendsTrans(s1: Store, s2: Store, s3: Store)
    requires Extends(s1, s2) && Extends(s2, s3)
    ensures Extends(s1, s3)
  {
  }

  /** One handler run keeps every existing row as it was, and adds exactly as many rows as
      it confirms registrations (zero or one). */
  lemma HandleGrows(s: Store, fault: Fault, input: Input)
    ensures Extends(s, Handle(s, fault, input).store)
    ensures |Handle(s, fault, input).store| == |s| + Registrations(Handle(s, fault, input).events)
  {
    var r := Handle(s, fault, input);
    assert Registrations(r.events) == (if r.events[0].SendMessage? && r.events[0].reply.FileAdded? then 1 else 0) + Registrations(r.events[1..]);
    if |r.events| == 2 {
      assert Registrations(r.events[1..]) == (if r.events[1].SendMessage? && r.events[1].reply.FileAdded? then 1 else 0) + Registrations(r.events[2..]);
    }
    match input
    case AddInput(c, u, a) =>
      if r.store != s {
        assert r.store.Keys == s.Keys + {a.slug} && a.slug !in s.Keys;
      }
    case _ =>
  }

  /** No handler removes or rewrites a row, and after any sequence of requests the table
      holds the rows it started with plus one per confirmed registration. */
  lemma {:induction false} RunGrows(s: Store, rs: seq<Request>)
    ensures Extends(s, Run(s, rs).store)
    ensures |Run(s, rs).store| == |s| + Registrations(Run(s, rs).events)
    decreases |rs|
  {
    if rs != [] {
      var first := Handle(s, rs[0].fault, rs[0].input);
      HandleGrows(s, rs[0].fault, rs[0].input);
      RunGrows(first.store, rs[1..]);
      ExtendsTrans(s, first.store, Run(first.store, rs[1..]).store);
      RegistrationsAppend(first.events, Run(first.store, rs[1..]).events);
    }
  }

  /** The row count never goes down. */
  lemma CountMonotone(s: Store, rs: seq<Request>)
    ensures Count(s) <= Count(Run(s, rs).store)
  {
    RunGrows(s, rs);
  }

  /** `/status` after any sequence of requests reports the rows there were at the start
      plus the registrations confirmed since. */
  lemma StatusAfterRun(s: Store, rs: seq<Request>, chatId: int)
    ensures Status(Run(s, rs).store, Healthy, chatId, AdminId).events
         == [SendMessage(chatId, StatusReport(|s| + Registrations(Run(s, rs).events)))]
  {
    RunGrows(s, rs);
  }

  /** Every handler keeps the stored kinds valid. */
  lemma HandleKeepsValidKinds(s: Store, fault: Fault, input: Input)
    requires ValidKinds(s)
    ensures ValidKinds(Handle(s, fault, input).store)
  {
  }

  lemma {:induction false} RunKeepsValidKinds(s: Store, rs: seq<Request>)
    requires ValidKinds(s)
    ensures ValidKinds(Run(s, rs).store)
    decreases |rs|
  {
    if rs != [] {
      HandleKeepsValidKinds(s, rs[0].fault, rs[0].input);
      RunKeepsValidKinds(Handle(s, rs[0].fault, rs[0].input).store, rs[1..]);
    }
  }

  /** Seeding writes a valid kind too. */
  lemma SeedKeepsValidKinds(s: Store, fault: Fault)
    requires ValidKinds(s)
    ensures ValidKinds(Seed(s, fault))
  {
  }

  /** Seeding a second time, however the database behaves, changes nothing once the
      first seeding took place; and with one fault mode it is idempotent outright. */
  lemma SeedIdempotent(s: Store, f: Fault, g: Fault)
    ensures Seed(Seed(s, f), f) == Seed(s, f)
    ensures f == Healthy ==> Seed(Seed(s, f), g) == Seed(s, f)
  {
  }

  /** Phase 2: a slug found at callback time gets the "sending" toast strictly before the
      one and only delivery; on a table every handler has kept valid, that delivery is
      never replaced by the unknown-type message. */
  lemma CallbackAckBeforeDelivery(s: Store, q: Query)
    requires LookupKey(s, q.data).Some?
    ensures var es := Callback(s, Healthy, q).events;
      && Deliveries(es) <= 1
      && (ValidKinds(s) ==> Deliveries(es) == 1)
      && forall i, j ::
           (0 <= i < |es| && 0 <= j < |es| && es[i] == AnswerCallback(q.id, NoticeSending) && es[j].IsDelivery()) ==> i < j
  {
    var es := Callback(s, Healthy, q).events;
    assert |es| == 2;
    assert Deliveries(es) == (if es[0].IsDelivery() then 1 else 0) + Deliveries(es[1..]);
    assert Deliveries(es[1..]) == (if es[1].IsDelivery() then 1 else 0) + Deliveries(es[2..]);
    if ValidKinds(s) {
      assert ParseKind(s[q.data.value].fileType).Some?;
    }
  }

  /** A callback for a missing slug is answered with a toast only: no delivery. */
  lemma CallbackMissingNoDelivery(s: Store, fault: Fault, q: Query)
    requires LookupKey(s, q.data).None?
    ensures Deliveries(Callback(s, fault, q).events) == 0
  {
  }

  /** Registration round trip: the admin adding a fresh slug makes that slug, and only
      it, map to exactly the requested row, and the reply links to it. */
  lemma AddThenLookup(s: Store, chatId: int, a: AddArgs, k: string)
    requires a.slug !in s
    ensures var r := Add(s, Healthy, chatId, AdminId, a);
      && Lookup(r.store, a.slug) == Some(Descriptor(a.fileId, KindName(a.kind), Some(a.caption)))
      && (k != a.slug ==> Lookup(r.store, k) == Lookup(s, k))
      && Count(r.store) == Count(s) + 1
      && r.events == [SendMessage(chatId, FileAdded(a.slug, KindName(a.kind), a.caption, DeepLinkBase + a.slug))]
  {
  }

  /** A taken slug is refused by name, whatever the new row would have been, and the
      existing row is left as it was. */
  lemma AddDuplicateUnchanged(s: Store, fault: Fault, chatId: int, a: AddArgs)
    requires a.slug in s && fault != ReadFails
    ensures Add(s, fault, chatId, AdminId, a) == Step(s, [SendMessage(chatId, SlugTaken(a.slug))])
  {
  }

  /** Anyone but the admin is refused `/add` and `/status` with the same reply whatever
      the table holds and however the database behaves: neither looks at the table. */
  lemma DenialReadsNothing(s1: Store, s2: Store, f1: Fault, f2: Fault, chatId: int, userId: int, a: AddArgs)
    requires !IsAdmin(userId)
    ensures Add(s1, f1, chatId, userId, a) == Step(s1, [SendMessage(chatId, NotAuthorized)])
    ensures Add(s1, f1, chatId, userId, a).events == Add(s2, f2, chatId, userId, a).events
    ensures Status(s1, f1, chatId, userId) == Step(s1, [SendMessage(chatId, NotAuthorized)])
    ensures Status(s1, f1, chatId, userId).events == Status(s2, f2, chatId, userId).events
  {
  }

  /** `/start` without a slug answers the same welcome whatever the table holds: no lookup. */
  lemma WelcomeReadsNothing(s1: Store, s2: Store, f1: Fault, f2: Fault, chatId: int)
    ensures Start(s1, f1, chatId, None) == Step(s1, [SendMessage(chatId, Welcome)])
    ensures Start(s1, f1, chatId, None).events == Start(s2, f2, chatId, None).events
  {
  }

  /** `/help` answers anyone with the one help message, whatever the table holds: it reads
      nothing and writes nothing. */
  lemma HelpReadsNothing(s1: Store, s2: Store, chatId: int)
    ensures Help(s1, chatId).store == s1
    ensures Help(s1, chatId).events == [SendMessage(chatId, HelpText)]
    ensures Help(s1, chatId).events == Help(s2, chatId).events
  {
  }

  /** The offer for a registered slug shows the row's caption when it has a non-empty one,
      and "File available" when the caption is missing or empty. */
  lemma OfferShowsCaption(s: Store, chatId: int, slug: string)
    requires slug != [] && slug in s
    ensures var offer := Start(s, Healthy, chatId, Some(slug)).events[0];
      && (s[slug].caption.Some? && s[slug].caption.value != [] ==> offer.reply.text == s[slug].caption.value)
      && (s[slug].caption == None || s[slug].caption == Some([]) ==> offer.reply.text == DefaultLabel)
  {
  }

  /** The offer and the delivery agree on the caption: when the row has a non-empty one,
      the offer shows exactly the text the media is sent with; otherwise the offer falls
      back to "File available" and the media goes out with an empty caption. */
  lemma OfferMatchesDelivery(d: Descriptor)
    ensures Truthy(d.caption) ==> OfferText(d) == DeliveryCaption(d) == d.caption.value
    ensures !Truthy(d.caption) ==> OfferText(d) == DefaultLabel && DeliveryCaption(d) == []
  {
  }

  /** The admin's `/add` message written as the documented command line stores exactly
      the row it describes under a fresh slug. */
  lemma AddMessageStores(s: Store, chatId: int, a: AddArgs)
    requires Writable(a) && a.slug !in s
    ensures OnAdd(s, Healthy, Message(chatId, AdminId, AddCommand(a))).store
         == s[a.slug := Descriptor(a.fileId, KindName(a.kind), Some(a.caption))]
  {
    AddCommandRoundTrip(a);
  }

  /** A deep link's `/start <slug>` message, from anyone, offers the row registered under
      that slug with a button carrying it, or answers not-found when there is none. */
  lemma StartMessageOffers(s: Store, chatId: int, userId: int, slug: string)
    requires slug != [] && NoBreakIn(slug) && !IsSpace(slug[0])
    ensures OnStart(s, Healthy, Message(chatId, userId, StartCommand(slug))).events
         == [SendMessage(chatId, if slug in s then FileOffer(OfferText(s[slug]), Button(ButtonLabel, slug)) else FileNotFound)]
  {
    StartCommandRoundTrip(slug);
  }

  /** Any message mentioning `/status` gets the admin the row count on a working database,
      and anyone else the refusal; the table is left as it was. */
  lemma StatusMessageReports(s: Store, chatId: int, userId: int, t: string, k: nat)
    requires OccursAt(t, "/status", k)
    ensures OnStatus(s, Healthy, Message(chatId, userId, t)).store == s
    ensures OnStatus(s, Healthy, Message(chatId, userId, t)).events
         == [SendMessage(chatId, if IsAdmin(userId) then StatusReport(|s|) else NotAuthorized)]
  {
  }

  /** Any message mentioning `/help`, from anyone, gets the one help message. */
  lemma HelpMessageAnswers(s: Store, chatId: int, userId: int, t: string, k: nat)
    requires OccursAt(t, "/help", k)
    ensures OnHelp(s, Message(chatId, userId, t)) == Step(s, [SendMessage(chatId, HelpText)])
  {
  }

  /** The link the `/add` reply carries leads back: the `/start` message its deep link
      sends is recognised with exactly the registered slug. */
  lemma LinkLeadsBack(a: AddArgs)
    requires Writable(a)
    ensures MatchStart(StartCommand(DeepLink(a.slug)[|DeepLinkBase|..])) == Some(Some(a.slug))
  {
    assert NoBreakIn(a.slug) by {
      forall k | 0 <= k < |a.slug| ensures !IsBreak(a.slug[k]) {
        assert !IsSpace(a.slug[k]);
      }
    }
    StartCommandRoundTrip(a.slug);
  }

  /** Phase 1 offers a button exactly for registered slugs, one at most, carrying the slug. */
  lemma OfferOnlyForRegistered(s: Store, chatId: int, slug: string)
    requires slug != []
    ensures Buttons(Start(s, Healthy, chatId, Some(slug)).events) == (if slug in s then 1 else 0)
    ensures slug in s ==> Start(s, Healthy, chatId, Some(slug)).events[0].reply.button.callbackData == slug
  {
  }

  /** The whole protocol: once the admin registers a fresh slug, `/start slug` offers a
      button carrying it, and pressing that button sends the "sending" toast and then the
      media of the registered kind with its file id and caption. */
  lemma RegisterResolveDeliver(s: Store, adminChat: int, userChat: int, a: AddArgs, qid: string)
    requires a.slug !in s && a.slug != [] && a.caption != []
    ensures var s1 := Add(s, Healthy, adminChat, AdminId, a).store;
      var offer := Start(s1, Healthy, userChat, Some(a.slug)).events[0];
      && offer.HasButton()
      && offer.reply.button.callbackData == a.slug
      && offer.reply.text == a.caption
      && var es := Callback(s1, Healthy, Query(qid, userChat, Some(offer.reply.button.callbackData))).events;
      && es[0] == AnswerCallback(qid, NoticeSending)
      && es[1] == (match a.kind
                   case Photo => SendPhoto(userChat, a.fileId, a.caption)
                   case Video => SendVideo(userChat, a.fileId, a.caption)
                   case Document => SendDocument(userChat, a.fileId, a.caption))
  {
  }
}
