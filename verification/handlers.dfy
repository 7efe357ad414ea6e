/** The bot's handlers as pure transitions: each takes the table and the request and
    returns the new table with the Telegram calls it makes, in order. Replies are
    recorded by meaning rather than by their exact text. */
module Handlers {
  import opened Wrappers
  import opened Registry
  import opened Auth
  import opened Commands

  /** Prefix of the shareable link `/add` replies with. */
  const DeepLinkBase: string := "https://t.me/sorrybabubot?start="

  /** Offer text when the row has no caption (or an empty one). */
  const DefaultLabel: string := "File available"

  /** Label of the inline button under an offer. */
  const ButtonLabel: string := "Send me"

  /** The seeded demonstration row. */
  const TestSlug: string := "testvideo1"
  const TestDescriptor: Descriptor :=
    Descriptor("BAACAgUAAxkBAAFB_0RpiGfUbmP3qEmL5Ow7yXm3XepUmAACCxwAAmngSVR8hHWXDZZRIToE", "video", Some("Id:2001"))

  /** One inline-keyboard button; `callbackData` comes back in the callback query. */
  datatype Button = Button(title: string, callbackData: string)

  /** What a chat message says. */
  datatype Reply =
    | Welcome
    | FileNotFound
    | FileOffer(text: string, button: Button)
    | RetrieveError
    | NotAuthorized
    | SlugTaken(slug: string)
    | FileAdded(slug: string, fileType: string, caption: string, link: string)
    | AddError
    | StatusReport(total: nat)
    | StatusError
    | HelpText
    | UnknownFileType

  /** What an `answerCallbackQuery` toast says. */
  datatype Notice = NoticeNotFound | NoticeSending | NoticeError

  /** One Telegram API call. */
  datatype Event =
    | SendMessage(chatId: int, reply: Reply)
    | AnswerCallback(queryId: string, notice: Notice)
    | SendPhoto(chatId: int, fileId: string, caption: string)
    | SendVideo(chatId: int, fileId: string, caption: string)
    | SendDocument(chatId: int, fileId: string, caption: string)
  {
    /** The call hands the media itself to the chat. */
    predicate IsDelivery() {
      SendPhoto? || SendVideo? || SendDocument?
    }

    /** The message carries an inline button. */
    predicate HasButton() {
      SendMessage? && reply.FileOffer?
    }
  }

  /** The result of one handler run. */
  datatype Step = Step(store: Store, events: seq<Event>)

  /** A text message: chat, sender and text. */
  datatype Message = Message(chatId: int, fromId: int, text: string)

  /** A callback query; `data` is absent for queries not coming from an inline button. */
  datatype Query = Query(id: string, chatId: int, data: Option<string>)

  /** JavaScript truthiness of an optional string: present and non-empty. */
  predicate Truthy(s: Option<string>) {
    s.Some? && s.value != []
  }

  /** `caption || 'File available'`. */
  function OfferText(d: Descriptor): string {
    if Truthy(d.caption) then d.caption.value else DefaultLabel
  }

  /** `caption || ''`: the caption sent with the media, empty when there is none. */
  function DeliveryCaption(d: Descriptor): (r: string)
    ensures Truthy(d.caption) ==> r == d.caption.value
    ensures !Truthy(d.caption) ==> r == []
  {
    d.caption.GetOr([])
  }

  /** The share link for a slug; the deep link it opens sends `/start` followed by
      exactly the text after the prefix. */
  function DeepLink(slug: string): (r: string)
    ensures |r| == |DeepLinkBase| + |slug|
    ensures r[..|DeepLinkBase|] == DeepLinkBase && r[|DeepLinkBase|..] == slug
  {
    DeepLinkBase + slug
  }

  /** Number of buttons among the events; zero exactly when no event carries one. */
  function Buttons(es: seq<Event>): (r: nat)
    ensures r == 0 <==> forall i :: 0 <= i < |es| ==> !es[i].HasButton()
  {
    if es == [] then 0 else (if es[0].HasButton() then 1 else 0) + Buttons(es[1..])
  }

  /** `/start [slug]`: welcome without a slug, otherwise a lookup answered by a not-found
      message or by the caption with one button carrying the slug. */
  function Start(s: Store, fault: Fault, chatId: int, slug: Option<string>): (r: Step)
    ensures r.store == s
    ensures |r.events| == 1 && r.events[0].SendMessage? && r.events[0].chatId == chatId
    ensures !Truthy(slug) ==> r.events[0].reply == Welcome
    ensures r.events[0].HasButton() <==> Truthy(slug) && fault != ReadFails && slug.value in s
    ensures Truthy(slug) && fault != ReadFails && slug.value !in s ==> r.events[0].reply == FileNotFound
    ensures Truthy(slug) && fault == ReadFails ==> r.events[0].reply == RetrieveError
    ensures r.events[0].HasButton() ==>
      r.events[0].reply == FileOffer(OfferText(s[slug.value]), Button(ButtonLabel, slug.value))
  {
    if !Truthy(slug) then Step(s, [SendMessage(chatId, Welcome)])
    else if fault == ReadFails then Step(s, [SendMessage(chatId, RetrieveError)])
    else
      match Lookup(s, slug.value)
      case None => Step(s, [SendMessage(chatId, FileNotFound)])
      case Some(d) => Step(s, [SendMessage(chatId, FileOffer(OfferText(d), Button(ButtonLabel, slug.value)))])
  }

  /** `/add slug fileId kind caption`: admin only; refuses a taken slug; otherwise stores
      the row and replies with its share link. The table changes only when the admin
      registers a fresh slug on a working database, and then by exactly that row. */
  function Add(s: Store, fault: Fault, chatId: int, userId: int, a: AddArgs): (r: Step)
    ensures |r.events| == 1 && r.events[0].SendMessage? && r.events[0].chatId == chatId
    ensures !IsAdmin(userId) ==> r.store == s && r.events[0].reply == NotAuthorized
    ensures IsAdmin(userId) && fault != ReadFails && a.slug in s ==>
      r.store == s && r.events[0].reply == SlugTaken(a.slug)
    ensures r.store != s <==> IsAdmin(userId) && fault == Healthy && a.slug !in s
    ensures r.store != s ==>
      && r.store.Keys == s.Keys + {a.slug}
      && Lookup(r.store, a.slug) == Some(Descriptor(a.fileId, KindName(a.kind), Some(a.caption)))
      && r.events[0].reply == FileAdded(a.slug, KindName(a.kind), a.caption, DeepLink(a.slug))
    ensures r.events[0].reply.FileAdded? <==> r.store != s
    ensures r.events[0].reply == NotAuthorized <==> !IsAdmin(userId)
    ensures r.events[0].reply.SlugTaken? <==> IsAdmin(userId) && fault != ReadFails && a.slug in s
    ensures r.events[0].reply == AddError <==>
      IsAdmin(userId) && (fault == ReadFails || (fault == WriteFails && a.slug !in s))
    ensures Extends(s, r.store)
  {
    if !IsAdmin(userId) then Step(s, [SendMessage(chatId, NotAuthorized)])
    else if fault == ReadFails then Step(s, [SendMessage(chatId, AddError)])
    else if Lookup(s, a.slug).Some? then Step(s, [SendMessage(chatId, SlugTaken(a.slug))])
    else if fault == WriteFails then Step(s, [SendMessage(chatId, AddError)])
    else
      var d := Descriptor(a.fileId, KindName(a.kind), Some(a.caption));
      match Insert(s, a.slug, d)
      case Failure(_) => Step(s, [SendMessage(chatId, AddError)])
      case Success(s') =>
        assert fault == Healthy && a.slug in s' && a.slug !in s;
        Step(s', [SendMessage(chatId, FileAdded(a.slug, KindName(a.kind), a.caption, DeepLink(a.slug)))])
  }

  /** `/status`: admin only; reports how many rows the table holds. Never changes it. */
  function Status(s: Store, fault: Fault, chatId: int, userId: int): (r: Step)
    ensures r.store == s
    ensures |r.events| == 1 && r.events[0].SendMessage? && r.events[0].chatId == chatId
    ensures !IsAdmin(userId) ==> r.events[0].reply == NotAuthorized
    ensures r.events[0].reply.StatusReport? <==> IsAdmin(userId) && fault != ReadFails
    ensures r.events[0].reply.StatusReport? ==> r.events[0].reply.total == |s.Keys|
    ensures r.events[0].reply == NotAuthorized <==> !IsAdmin(userId)
    ensures IsAdmin(userId) && fault == ReadFails ==> r.events[0].reply == StatusError
  {
    if !IsAdmin(userId) then Step(s, [SendMessage(chatId, NotAuthorized)])
    else if fault == ReadFails then Step(s, [SendMessage(chatId, StatusError)])
    else Step(s, [SendMessage(chatId, StatusReport(Count(s)))])
  }

  /** `/help`: the static command list, to anyone. */
  function Help(s: Store, chatId: int): Step {
    Step(s, [SendMessage(chatId, HelpText)])
  }

  /** The delivery call for a row, chosen by its `file_type`; a type outside the three
      kinds gets a text message instead of a delivery. */
  function Deliver(chatId: int, d: Descriptor): (r: Event)
    ensures r.IsDelivery() <==> ParseKind(d.fileType).Some?
    ensures r.IsDelivery() ==> r.chatId == chatId && r.fileId == d.fileId && r.caption == DeliveryCaption(d)
    ensures ParseKind(d.fileType) == Some(Photo) ==> r.SendPhoto?
    ensures ParseKind(d.fileType) == Some(Video) ==> r.SendVideo?
    ensures ParseKind(d.fileType) == Some(Document) ==> r.SendDocument?
    ensures !r.IsDelivery() ==> r == SendMessage(chatId, UnknownFileType)
  {
    match ParseKind(d.fileType)
    case Some(Photo) => SendPhoto(chatId, d.fileId, DeliveryCaption(d))
    case Some(Video) => SendVideo(chatId, d.fileId, DeliveryCaption(d))
    case Some(Document) => SendDocument(chatId, d.fileId, DeliveryCaption(d))
    case None => SendMessage(chatId, UnknownFileType)
  }

  /** The button press: looks the slug up again; a missing row gets a not-found toast, a
      present one a "sending" toast followed by its delivery. */
  function Callback(s: Store, fault: Fault, q: Query): (r: Step)
    ensures r.store == s
    ensures 1 <= |r.events| <= 2
    ensures r.events[0] == AnswerCallback(q.id, if fault == ReadFails then NoticeError
                                               else if LookupKey(s, q.data).None? then NoticeNotFound
                                               else NoticeSending)
    ensures |r.events| == 2 <==> fault != ReadFails && LookupKey(s, q.data).Some?
    ensures |r.events| == 2 ==> r.events[1] == Deliver(q.chatId, s[q.data.value])
  {
    if fault == ReadFails then Step(s, [AnswerCallback(q.id, NoticeError)])
    else
      match LookupKey(s, q.data)
      case None => Step(s, [AnswerCallback(q.id, NoticeNotFound)])
      case Some(d) => Step(s, [AnswerCallback(q.id, NoticeSending), Deliver(q.chatId, d)])
  }

  /** `insertTestData`: adds the demonstration row unless its slug is already taken or the
      database fails; never touches any other row. */
  function Seed(s: Store, fault: Fault): (r: Store)
    ensures Extends(s, r)
    ensures TestSlug in s ==> r == s
    ensures fault == Healthy ==> Lookup(r, TestSlug).Some?
    ensures r != s ==> r.Keys == s.Keys + {TestSlug} && r[TestSlug] == TestDescriptor
    ensures fault != Healthy ==> r == s
  {
    if fault == ReadFails || Lookup(s, TestSlug).Some? || fault == WriteFails then s
    else
      match Insert(s, TestSlug, TestDescriptor)
      case Failure(_) => s
      case Success(s') =>
        assert fault == Healthy;
        s'
  }

  /** The `/start` listener on a raw message: silent unless the text contains `/start`,
      and otherwise the `/start` handler on the group the pattern captured, or on no slug
      when the group did not take part. */
  function OnStart(s: Store, fault: Fault, msg: Message): (r: Step)
    ensures r.store == s
    ensures r.events == [] <==> MatchStart(msg.text).None?
    ensures MatchStart(msg.text).Some? ==> r == Start(s, fault, msg.chatId, MatchStart(msg.text).value)
  {
    match MatchStart(msg.text)
    case None => Step(s, [])
    case Some(slug) => Start(s, fault, msg.chatId, slug)
  }

  /** The `/add` listener on a raw message: silent and read-only unless the whole
      pattern matches. The table changes exactly when the admin's message matches on a
      working database with a slug not yet taken. */
  function OnAdd(s: Store, fault: Fault, msg: Message): (r: Step)
    ensures MatchAdd(msg.text).None? ==> r == Step(s, [])
    ensures r.events == [] <==> MatchAdd(msg.text).None?
    ensures r.store != s <==>
      IsAdmin(msg.fromId) && fault == Healthy && MatchAdd(msg.text).Some? && MatchAdd(msg.text).value.slug !in s
    ensures Extends(s, r.store)
    ensures MatchAdd(msg.text).Some? ==> r == Add(s, fault, msg.chatId, msg.fromId, MatchAdd(msg.text).value)
  {
    match MatchAdd(msg.text)
    case None => Step(s, [])
    case Some(a) => Add(s, fault, msg.chatId, msg.fromId, a)
  }

  /** The `/status` listener on a raw message. */
  function OnStatus(s: Store, fault: Fault, msg: Message): (r: Step)
    ensures r.store == s
    ensures r.events == [] <==> !MatchStatus(msg.text)
    ensures MatchStatus(msg.text) ==> r == Status(s, fault, msg.chatId, msg.fromId)
  {
    if MatchStatus(msg.text) then Status(s, fault, msg.chatId, msg.fromId) else Step(s, [])
  }

  /** The `/help` listener on a raw message. */
  function OnHelp(s: Store, msg: Message): (r: Step)
    ensures r.store == s
    ensures r.events == [] <==> !MatchHelp(msg.text)
    ensures MatchHelp(msg.text) ==> r == Help(s, msg.chatId)
  {
    if MatchHelp(msg.text) then Help(s, msg.chatId) else Step(s, [])
  }
}
