/** Concrete runs of the bot: the registration, resolution, refusal and status examples,
    starting from the raw message texts. */
module Scenarios {
  import opened Wrappers
  import opened Registry
  import opened Auth
  import opened Patterns
  import opened Commands
  import opened Handlers
  import opened Properties

  const AddPromo: string := "/add promo ABC123 video New Year Promo"

  /** The arguments the promo message carries. */
  const PromoArgs: AddArgs := AddArgs("promo", "ABC123", Video, "New Year Promo")

  /** The promo message is the documented command line for its arguments. */
  lemma PromoIsCommandLine()
    ensures AddCommand(PromoArgs) == AddPromo
  {
  }

  /** The promo arguments can be written on one command line. */
  lemma PromoWritable()
    ensures Writable(PromoArgs)
  {
  }

  /** The `/add` pattern reads the promo registration into its four groups, with the
      caption taken verbatim, inner spaces included.

      The text is a parameter pinned by the precondition rather than the literal itself:
      with a literal argument the verifier would evaluate the recogniser character by
      character, while here the proof goes through the general round-trip lemma. */
  lemma ParseAddPromo(t: string)
    requires t == AddPromo
    ensures MatchAdd(t) == Some(PromoArgs)
  {
    PromoIsCommandLine();
    PromoWritable();
    AddCommandRoundTrip(PromoArgs);
  }

  /** A deep link's `/start` carries the slug as its group. The text is pinned by the
      precondition for the same reason as in `ParseAddPromo`. */
  lemma ParseStartPromo(t: string)
    requires t == "/start promo"
    ensures MatchStart(t) == Some(Some("promo"))
  {
    assert StartCommand("promo") == t;
    StartCommandRoundTrip("promo");
  }

  /** The promo row as the admin's message registers it. */
  const PromoRow: Descriptor := Descriptor("ABC123", "video", Some("New Year Promo"))

  /** The admin's promo message stores exactly the promo row and replies with the
      promo share link. */
  lemma AddPromoStores(s: Store, add: Message)
    requires "promo" !in s
    requires add.fromId == AdminId && add.text == AddPromo
    ensures Lookup(OnAdd(s, Healthy, add).store, "promo") == Some(PromoRow)
    ensures OnAdd(s, Healthy, add).events
         == [SendMessage(add.chatId, FileAdded("promo", "video", "New Year Promo", DeepLinkBase + "promo"))]
  {
    ParseAddPromo(add.text);
    AddThenLookup(s, add.chatId, PromoArgs, "promo");
  }

  /** Anyone's `/start promo` on a table holding the promo row offers its caption with
      a button carrying `promo`. */
  lemma StartPromoOffers(s: Store, start: Message)
    requires Lookup(s, "promo") == Some(PromoRow)
    requires start.text == "/start promo"
    ensures OnStart(s, Healthy, start)
         == Step(s, [SendMessage(start.chatId, FileOffer("New Year Promo", Button(ButtonLabel, "promo")))])
  {
    ParseStartPromo(start.text);
  }

  /** Pressing that button sends the "sending" toast and then the video with its handle
      and caption. */
  lemma PressPromoSendsVideo(s: Store, q: Query)
    requires Lookup(s, "promo") == Some(PromoRow)
    requires q.data == Some("promo")
    ensures Callback(s, Healthy, q).events
         == [AnswerCallback(q.id, NoticeSending), SendVideo(q.chatId, "ABC123", "New Year Promo")]
  {
  }

  /** A slug nobody registered gets the not-found message and no button. */
  lemma UnknownSlugNotFound(s: Store, chatId: int)
    requires "unknownslug" !in s
    ensures Start(s, Healthy, chatId, Some("unknownslug")) == Step(s, [SendMessage(chatId, FileNotFound)])
  {
  }

  /** A non-admin's well-formed `/add` is refused and the row count stays the same. */
  lemma NonAdminAddRefused(s: Store, fault: Fault, chatId: int, userId: int)
    requires userId != AdminId
    ensures Add(s, fault, chatId, userId, AddArgs("x", "y", Photo, "z")) == Step(s, [SendMessage(chatId, NotAuthorized)])
  {
  }

  /** With two rows registered the admin's `/status` reports two. */
  lemma StatusReportsTwo(chatId: int, d1: Descriptor, d2: Descriptor)
    ensures Status(map["promo" := d1, "testvideo1" := d2], Healthy, chatId, AdminId).events
         == [SendMessage(chatId, StatusReport(2))]
  {
    var s := map["promo" := d1, "testvideo1" := d2];
    assert s.Keys == {"promo", "testvideo1"};
  }

  /** The admin's `/status` message on that two-row table reports two. The text is pinned
      by the precondition for the same reason as in `ParseAddPromo`. */
  lemma StatusMessageReportsTwo(chatId: int, d1: Descriptor, d2: Descriptor, t: string)
    requires t == "/status"
    ensures OnStatus(map["promo" := d1, "testvideo1" := d2], Healthy, Message(chatId, AdminId, t)).events
         == [SendMessage(chatId, StatusReport(2))]
  {
    var s := map["promo" := d1, "testvideo1" := d2];
    assert s.Keys == {"promo", "testvideo1"};
    assert OccursAt(t, "/status", 0);
    StatusMessageReports(s, chatId, AdminId, t, 0);
  }
}
