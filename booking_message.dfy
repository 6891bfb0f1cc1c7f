/// The text sent on a valid submission and the WhatsApp link that carries it.
module BookingMessage {

  import opened Options

  const WhatsAppNumber := "15199549333"

  /** Everything in the link before the encoded message. */
  const LinkPrefix := "https://wa.me/" + WhatsAppNumber + "?text="

  const Greeting := "Hello Velvet Handlebear! \U{1F44B}\n\nI would like to book an appointment:\n\n\U{1F4CB} *Booking Details:*\n"
  const NotesHeading := "\U{1F4DD} Additional Notes:\n"
  const OpenStatus := "\U{1F7E2} We're currently open!"
  const ClosedStatus := "\U{1F534} We're currently closed. We'll respond during business hours (Tue-Fri, 10 AM - 8 PM)."
  const Closing := "\n\nLooking forward to your confirmation!"

  /** `needle` occurs in `text` starting at index `i`. */
  predicate OccursAt(text: string, needle: string, i: int) {
    0 <= i && i + |needle| <= |text| && text[i..i + |needle|] == needle
  }

  predicate Contains(text: string, needle: string) {
    exists i :: 0 <= i <= |text| && OccursAt(text, needle, i)
  }

  predicate EndsWith(text: string, suffix: string) {
    |suffix| <= |text| && text[|text| - |suffix|..] == suffix
  }

  /** The optional notes section: present only when the customer wrote notes. */
  function NotesBlock(notes: string): string {
    if notes == "" then "" else NotesHeading + notes + "\n\n"
  }

  /** The status line: open or closed at the moment of sending. */
  function StatusLine(open: bool): string {
    if open then OpenStatus else ClosedStatus
  }

  /** The concatenation of `parts`, in order. */
  function Concat(parts: seq<string>): string {
    if parts == [] then "" else parts[0] + Concat(parts[1..])
  }

  /** The message text, line by line; `date` and `time` are already formatted
      for reading. */
  function MessageParts(name: string, phone: string, service: string, date: string, time: string,
                        notes: string, open: bool): (parts: seq<string>)
    ensures |parts| == 10
  {
    [ Greeting,
      "\U{2022} Name: " + name + "\n",
      "\U{2022} Phone: " + phone + "\n",
      "\U{2022} Service: " + service + "\n",
      "\U{2022} Preferred Date: " + date + "\n",
      "\U{2022} Preferred Time: " + time + "\n",
      "\n",
      NotesBlock(notes),
      StatusLine(open),
      Closing ]
  }

  function ComposeMessage(name: string, phone: string, service: string, date: string, time: string,
                          notes: string, open: bool): (m: string)
    ensures Greeting <= m
  {
    Concat(MessageParts(name, phone, service, date, time, notes, open))
  }

  /** The link opened on submission, given the percent-encoded message. */
  function WhatsAppUrl(encodedMessage: string): (url: string)
    ensures LinkPrefix <= url && |url| == |LinkPrefix| + |encodedMessage|
  {
    LinkPrefix + encodedMessage
  }

  /** The `text` parameter of a link of this shape, if it has that shape. */
  function TextParameter(url: string): (text: Option<string>)
    ensures text.Some? <==> LinkPrefix <= url
  {
    if LinkPrefix <= url then Some(url[|LinkPrefix|..]) else None
  }

  /** Reading the `text` parameter of the link gives back the encoded message. */
  lemma TextParameterOfUrl(encodedMessage: string)
    ensures TextParameter(WhatsAppUrl(encodedMessage)) == Some(encodedMessage)
  {
    assert WhatsAppUrl(encodedMessage)[..|LinkPrefix|] == LinkPrefix;
  }

  ghost predicate Injective(encode: string -> string) {
    forall a, b :: encode(a) == encode(b) ==> a == b
  }

  /** With an injective encoding, the link determines the message. */
  lemma UrlDeterminesMessage(encode: string -> string, m1: string, m2: string)
    requires Injective(encode)
    requires WhatsAppUrl(encode(m1)) == WhatsAppUrl(encode(m2))
    ensures m1 == m2
  {
    TextParameterOfUrl(encode(m1));
    TextParameterOfUrl(encode(m2));
  }

  lemma OccursBetween(before: string, needle: string, after: string)
    ensures OccursAt(before + needle + after, needle, |before|)
  {
    var text := before + needle + after;
    assert text[|before|..|before| + |needle|] == needle;
  }

  /** Every part stands whole in the concatenation, between the parts before
      it and the parts after it. */
  lemma {:induction false} ConcatSplit(parts: seq<string>, k: nat)
    requires k < |parts|
    ensures Concat(parts) == Concat(parts[..k]) + parts[k] + Concat(parts[k + 1..])
  {
    if k == 0 {
      assert parts[..0] == [];
    } else {
      ConcatSplit(parts[1..], k - 1);
      assert parts[1..][..k - 1] == parts[1..k];
      assert parts[1..][k..] == parts[k + 1..];
      assert parts[..k][1..] == parts[1..k];
    }
  }

  lemma ContainsPart(parts: seq<string>, k: nat)
    requires k < |parts|
    ensures Contains(Concat(parts), parts[k])
  {
    ConcatSplit(parts, k);
    OccursBetween(Concat(parts[..k]), parts[k], Concat(parts[k + 1..]));
  }

  /** Name, phone, service, date and time each appear verbatim, on their own
      labelled line. */
  lemma MessageShowsDetails(name: string, phone: string, service: string, date: string, time: string,
                            notes: string, open: bool)
    ensures var m := ComposeMessage(name, phone, service, date, time, notes, open);
      && Contains(m, "\U{2022} Name: " + name + "\n")
      && Contains(m, "\U{2022} Phone: " + phone + "\n")
      && Contains(m, "\U{2022} Service: " + service + "\n")
      && Contains(m, "\U{2022} Preferred Date: " + date + "\n")
      && Contains(m, "\U{2022} Preferred Time: " + time + "\n")
  {
    var parts := MessageParts(name, phone, service, date, time, notes, open);
    ContainsPart(parts, 1);
    ContainsPart(parts, 2);
    ContainsPart(parts, 3);
    ContainsPart(parts, 4);
    ContainsPart(parts, 5);
  }

  /** The notes section appears exactly when there are notes: the message
      equals the one without notes iff `notes` is empty, and non-empty notes
      appear verbatim under their heading. */
  lemma MessageShowsNotesIffAny(name: string, phone: string, service: string, date: string, time: string,
                                notes: string, open: bool)
    ensures var m := ComposeMessage(name, phone, service, date, time, notes, open);
      && (m == ComposeMessage(name, phone, service, date, time, "", open) <==> notes == "")
      && (notes != "" ==> Contains(m, NotesHeading + notes + "\n\n"))
  {
    var parts := MessageParts(name, phone, service, date, time, notes, open);
    var bare := MessageParts(name, phone, service, date, time, "", open);
    ConcatSplit(parts, 7);
    ConcatSplit(bare, 7);
    assert parts[..7] == bare[..7];
    assert parts[8..] == bare[8..];
    ContainsPart(parts, 7);
  }

  /** Where the open status line would start in a closed message, the closed
      line has something other than the open line's green circle. */
  lemma StatusLinesDiffer()
    ensures 0 < |OpenStatus| < |ClosedStatus|
    ensures ClosedStatus[|ClosedStatus| - |OpenStatus|] != OpenStatus[0]
  {
  }

  lemma EndsWithTail(head: string, tail: string)
    ensures EndsWith(head + tail, tail)
  {
    assert (head + tail)[|head|..] == tail;
  }

  /** `short + c` is not a suffix of a text that ends in `long + c` when the
      two texts disagree where `short` would begin. */
  lemma NotEndsWithOther(head: string, long: string, short: string, c: string)
    requires 0 < |short| < |long|
    requires long[|long| - |short|] != short[0]
    ensures !EndsWith(head + long + c, short + c)
  {
    var text := head + long + c;
    var k := |text| - |short + c|;
    assert text[k] == long[|long| - |short|];
    assert text[k..][0] == text[k];
  }

  /** `long + c` is not a suffix of a text that ends in `short + c` when the
      two disagree where `short` begins. */
  lemma NotEndsWithLonger(head: string, short: string, long: string, c: string)
    requires 0 < |short| < |long|
    requires long[|long| - |short|] != short[0]
    ensures !EndsWith(head + short + c, long + c)
  {
    var text := head + short + c;
    var k := |text| - |short + c|;
    assert text[k] == short[0];
    var j := |text| - |long + c|;
    if j >= 0 {
      assert text[j..][k - j] == text[k];
      assert (long + c)[k - j] == long[|long| - |short|];
    }
  }

  /** The message is everything up to the status line, then the status line,
      then the closing. */
  lemma MessageEndsWithStatus(name: string, phone: string, service: string, date: string, time: string,
                              notes: string, open: bool)
    ensures exists head :: ComposeMessage(name, phone, service, date, time, notes, open)
                           == head + StatusLine(open) + Closing
  {
    var parts := MessageParts(name, phone, service, date, time, notes, open);
    ConcatSplit(parts, 8);
    assert parts[9..] == [Closing];
    assert Concat([Closing]) == Closing;
  }

  /** Of two status lines that disagree where the shorter would begin, a text
      ending in one of them followed by `tail` ends in that one and not the
      other. */
  lemma StatusSuffixes(head: string, short: string, long: string, tail: string, useShort: bool)
    requires 0 < |short| < |long|
    requires long[|long| - |short|] != short[0]
    ensures var m := head + (if useShort then short else long) + tail;
      && (EndsWith(m, short + tail) <==> useShort)
      && (EndsWith(m, long + tail) <==> !useShort)
  {
    if useShort {
      EndsWithTail(head, short + tail);
      assert head + short + tail == head + (short + tail);
      NotEndsWithLonger(head, short, long, tail);
    } else {
      EndsWithTail(head, long + tail);
      assert head + long + tail == head + (long + tail);
      NotEndsWithOther(head, long, short, tail);
    }
  }

  /** The message ends with the open status line iff the shop was open when
      it was sent, and with the closed one iff it was not. */
  lemma MessageStatusIffOpen(name: string, phone: string, service: string, date: string, time: string,
                             notes: string, open: bool)
    ensures var m := ComposeMessage(name, phone, service, date, time, notes, open);
      && (EndsWith(m, OpenStatus + Closing) <==> open)
      && (EndsWith(m, ClosedStatus + Closing) <==> !open)
  {
    MessageEndsWithStatus(name, phone, service, date, time, notes, open);
    var head :| ComposeMessage(name, phone, service, date, time, notes, open) == head + StatusLine(open) + Closing;
    StatusLinesDiffer();
    StatusSuffixes(head, OpenStatus, ClosedStatus, Closing, open);
  }
}
