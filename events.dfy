/**
 * The event translator: one raw contract event becomes the record
 * `{eventName, message, toEthAccount}` that the notification step consumes.
 * Translation is a function of the event alone; its only collaborators are
 * the serialiser behind `additionalData.info` (a parameter here) and the
 * assumed hex decoder for the title.
 */
module Events {
  import opened Wrappers
  import Js
  import Hex

  /** The arguments of a contract event that the translator reads. */
  datatype Args = Args(from: Js.Value, to: Js.Value, docName: string)

  /**
   * A raw event as the subscription reports it: its name, the arguments the
   * translator reads, and `others`, which stands for every other field of
   * the event object (chain metadata, further arguments). Only the
   * serialiser looks at `others`.
   */
  datatype RawEvent = RawEvent(event: string, args: Args, others: string)

  /** The push payload's `data` object. */
  datatype Data = Data(
    info: string,
    body: Option<string>,
    title: string,
    contentAvailable: string,
    icon: string,
    image: string)

  datatype Message = Message(data: Data)

  /** What translation hands to the notification step. */
  datatype EventData = EventData(eventName: string, message: Message, toEthAccount: Js.Value)

  /** The static event-name to notification-body table. */
  const EVENT_MESSAGES: map<string, string> := map[
    "AddDocument" := "Document uploaded",
    "DeleteDocument" := "Document deleted",
    "Shared" := "A document has been shared with you",
    "UpdateDocument" := "Document updated"]

  const CONTENT_AVAILABLE := "1"
  const ICON := "ic_launcher"
  const IMAGE := "www/img/icon.png"

  /** The fixed display hints every payload carries. */
  predicate HasDisplayHints(d: Data)
  {
    d.contentAvailable == CONTENT_AVAILABLE && d.icon == ICON && d.image == IMAGE
  }

  /** `eventMessages[eventName]`: the table's entry, or absent for an unknown name. */
  function Body(eventName: string): (body: Option<string>)
    ensures body.Some? <==> eventName in {"AddDocument", "DeleteDocument", "Shared", "UpdateDocument"}
    ensures eventName == "AddDocument" ==> body == Some("Document uploaded")
    ensures eventName == "DeleteDocument" ==> body == Some("Document deleted")
    ensures eventName == "Shared" ==> body == Some("A document has been shared with you")
    ensures eventName == "UpdateDocument" ==> body == Some("Document updated")
  {
    if eventName in EVENT_MESSAGES then Some(EVENT_MESSAGES[eventName]) else None
  }

  /** The account to notify: `to` when truthy, otherwise `from` (self-notification). */
  function Recipient(args: Args): (account: Js.Value)
    ensures account == args.to || account == args.from
    ensures Js.Truthy(args.to) ==> account == args.to
    ensures !Js.Truthy(args.to) ==> account == args.from
    ensures Js.Truthy(account) <==> Js.Truthy(args.to) || Js.Truthy(args.from)
  {
    var toEthAccount := args.to;
    if !Js.Truthy(toEthAccount) then args.from else toEthAccount
  }

  /**
   * `eventResultToData`. `serialize` stands for `JSON.stringify` applied to
   * the whole event. Never fails: an unknown name and an absent recipient
   * both pass through.
   */
  function EventResultToData(ev: RawEvent, serialize: RawEvent -> string): (d: EventData)
    ensures d.eventName == ev.event
    ensures d.toEthAccount == Recipient(ev.args)
    ensures d.message.data.info == serialize(ev)
    ensures d.message.data.title == Hex.ToAscii(ev.args.docName)
    ensures d.message.data.body == Body(ev.event)
    ensures HasDisplayHints(d.message.data)
  {
    var data := Data(
      serialize(ev),
      Body(ev.event),
      Hex.ToAscii(ev.args.docName),
      CONTENT_AVAILABLE,
      ICON,
      IMAGE);
    EventData(ev.event, Message(data), Recipient(ev.args))
  }

  /** The body of each of the four known events, word for word; every other name has none. */
  lemma KnownBodies(ev: RawEvent, serialize: RawEvent -> string)
    ensures var body := EventResultToData(ev, serialize).message.data.body;
      && (ev.event == "AddDocument" ==> body == Some("Document uploaded"))
      && (ev.event == "DeleteDocument" ==> body == Some("Document deleted"))
      && (ev.event == "Shared" ==> body == Some("A document has been shared with you"))
      && (ev.event == "UpdateDocument" ==> body == Some("Document updated"))
      && (ev.event !in {"AddDocument", "DeleteDocument", "Shared", "UpdateDocument"} ==> body == None)
  {
  }

  /** The title depends on `docName` and on nothing else of the event. */
  lemma TitleOnlyFromDocName(e1: RawEvent, e2: RawEvent, s1: RawEvent -> string, s2: RawEvent -> string)
    requires e1.args.docName == e2.args.docName
    ensures EventResultToData(e1, s1).message.data.title == EventResultToData(e2, s2).message.data.title
  {
  }

  /**
   * A truthy `to` makes `from` irrelevant to the recipient. This restates a
   * clause of Recipient's contract on purpose, as a stand-alone property.
   */
  lemma FromIgnoredWhenToSet(args: Args, otherFrom: Js.Value)
    requires Js.Truthy(args.to)
    ensures Recipient(args) == Recipient(args.(from := otherFrom)) == args.to
  {
  }

  /**
   * An AddDocument event from 0xA to 0xB whose document name is stored as
   * the hex encoding of a text (such as "report.pdf") yields the "Document
   * uploaded" body, that text as title and the recipient 0xB.
   */
  lemma UploadScenario(name: string, others: string, serialize: RawEvent -> string)
    requires Hex.IsBytes(name)
    ensures var ev := RawEvent("AddDocument", Args(Js.Str("0xA"), Js.Str("0xB"), Hex.ToHex(name)), others);
      var d := EventResultToData(ev, serialize);
      && d.eventName == "AddDocument"
      && d.message.data.body == Some("Document uploaded")
      && d.message.data.title == name
      && d.toEthAccount == Js.Str("0xB")
  {
    Hex.RoundTrip(name);
  }
}
