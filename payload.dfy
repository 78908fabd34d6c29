/**
 * Shaping of the outbound interactive messages (backend/src/whatsapp/sendButtons.ts and
 * sendList.ts) to the WhatsApp interactive-message limits: at most 3 reply buttons, at most
 * 10 list rows in one section, row titles of at most 24, descriptions of at most 72 and a list
 * button label of at most 20 characters.
 */
module Payload {
  import opened Wrappers
  import opened JsText
  import opened Graph

  const MaxReplyButtons: nat := 3
  const MaxListRows: nat := 10
  const MaxRowTitle: nat := 24
  const MaxRowDescription: nat := 72
  const MaxListButton: nat := 20

  /** `{type: "reply", reply: {id, title}}`. */
  datatype ReplyButton = ReplyButton(kind: string, id: string, title: string)

  datatype Row = Row(id: string, title: string, description: Option<string>)

  datatype Section = Section(title: string, rows: seq<Row>)

  /** The `action` object of an interactive list message. */
  datatype ListAction = ListAction(button: string, sections: seq<Section>)

  function Min(a: nat, b: nat): nat {
    if a <= b then a else b
  }

  /** `buttons.slice(0, 3).map(btn => ({type: "reply", reply: {id: btn.id, title: btn.title}}))`. */
  function ButtonPayload(buttons: seq<Button>): (r: seq<ReplyButton>)
    ensures |r| == Min(MaxReplyButtons, |buttons|)
    ensures forall i :: 0 <= i < |r| ==> r[i] == ReplyButton("reply", buttons[i].id, buttons[i].title)
  {
    var n := Min(MaxReplyButtons, |buttons|);
    seq(n, i requires 0 <= i < n => ReplyButton("reply", buttons[i].id, buttons[i].title))
  }

  /** The button a reply entry stands for. */
  function Offered(r: ReplyButton): Button {
    Button(r.id, r.title)
  }

  /**
   * The payload loses nothing but the buttons past the third: reading the buttons back off the
   * payload gives the first three buttons, ids and titles unchanged and in order.
   */
  lemma ButtonPayloadRoundTrip(buttons: seq<Button>)
    ensures var r := ButtonPayload(buttons);
      seq(|r|, i requires 0 <= i < |r| => Offered(r[i])) == buttons[..Min(MaxReplyButtons, |buttons|)]
  {
  }

  /** Every id a user can reply with names one of the buttons handed to the sender. */
  lemma OfferedIdsFromButtons(buttons: seq<Button>, id: string)
    requires exists i :: 0 <= i < |ButtonPayload(buttons)| && ButtonPayload(buttons)[i].id == id
    ensures exists b :: b in buttons && b.id == id
  {
    var i :| 0 <= i < |ButtonPayload(buttons)| && ButtonPayload(buttons)[i].id == id;
    assert buttons[i] in buttons;
  }

  /** `description ? description.slice(0, 72) : undefined`: an empty description is dropped too. */
  function RowDescription(description: Option<string>): (r: Option<string>)
    ensures r.Some? <==> description.Some? && description.value != ""
    ensures r.Some? ==> r.value <= description.value && |r.value| <= MaxRowDescription
    ensures r.Some? ==> |r.value| == Min(MaxRowDescription, |description.value|)
  {
    if description.Some? && description.value != "" then Some(Truncate(description.value, MaxRowDescription))
    else None
  }

  /** `listItems.slice(0, 10).map(item => ({id, title: title.slice(0, 24), description}))`. */
  function Rows(items: seq<ListItem>): (r: seq<Row>)
    ensures |r| == Min(MaxListRows, |items|)
    ensures forall i :: 0 <= i < |r| ==> r[i].id == items[i].id
    ensures forall i :: 0 <= i < |r| ==> r[i].title <= items[i].title && |r[i].title| == Min(MaxRowTitle, |items[i].title|)
    ensures forall i :: 0 <= i < |r| ==> r[i].description == RowDescription(items[i].description)
  {
    var n := Min(MaxListRows, |items|);
    seq(n, i requires 0 <= i < n =>
      Row(items[i].id, Truncate(items[i].title, MaxRowTitle), RowDescription(items[i].description)))
  }

  /** The list action: the label cut to 20 characters and one section "Options" with all rows. */
  function ListPayload(buttonText: string, items: seq<ListItem>): (r: ListAction)
    ensures r.button <= buttonText && |r.button| == Min(MaxListButton, |buttonText|)
    ensures |r.sections| == 1 && r.sections[0].title == "Options"
    ensures r.sections[0].rows == Rows(items)
  {
    ListAction(Truncate(buttonText, MaxListButton), [Section("Options", Rows(items))])
  }

  /** Items whose titles already fit keep their titles exactly; only the 11th item on is dropped. */
  lemma ShortTitlesKept(items: seq<ListItem>)
    requires forall i :: 0 <= i < |items| ==> |items[i].title| <= MaxRowTitle
    ensures var r := Rows(items);
      forall i :: 0 <= i < |r| ==> r[i].title == items[i].title
  {
  }
}
