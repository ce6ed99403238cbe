/**
 * The contact routes over the `contact_messages` collection: submitting a
 * message (validated, normalised, stored with status "new"), the paged admin
 * listing (optional status filter, newest first) and the status update.
 *
 * The collection is the object `ContactStore`; its `_id` values are
 * ObjectIds, modelled as 96-bit numbers given out in increasing order and
 * written as 24 lower-case hexadecimal digits. The current time and the
 * fresh UUID of a new message are parameters.
 */
module ContactRoutes {
  import opened Wrappers
  import Text
  import Sorting
  import opened BlogModels

  // ObjectId text

  const OidDigits: nat := 24
  /** 16^24: the number of distinct ObjectIds. */
  const OidBound: nat := Pow16(OidDigits)

  function Pow16(n: nat): (p: nat)
    ensures p >= 1
  {
    if n == 0 then 1 else 16 * Pow16(n - 1)
  }

  function HexChar(d: nat): (c: char)
    requires d < 16
  {
    if d < 10 then ('0' as int + d) as char else ('a' as int + d - 10) as char
  }

  /** The value of a hexadecimal digit in either case, as `bytes.fromhex` reads it. */
  function HexValue(c: char): (r: Option<nat>)
    ensures r.Some? ==> r.value < 16
  {
    if '0' <= c <= '9' then Some(c as int - '0' as int)
    else if 'a' <= c <= 'f' then Some(c as int - 'a' as int + 10)
    else if 'A' <= c <= 'F' then Some(c as int - 'A' as int + 10)
    else None
  }

  /** The `width` lowest hexadecimal digits of n, most significant first. */
  function RenderHex(n: nat, width: nat): (r: string)
    ensures |r| == width
  {
    if width == 0 then "" else RenderHex(n / 16, width - 1) + [HexChar(n % 16)]
  }

  function ParseHex(s: string): Option<nat> {
    if s == [] then Some(0)
    else match (ParseHex(s[..|s| - 1]), HexValue(s[|s| - 1]))
      case (Some(v), Some(d)) => Some(v * 16 + d)
      case _ => None
  }

  /** `str(ObjectId)`. */
  function OidText(oid: nat): (t: string)
    ensures |t| == OidDigits
  {
    RenderHex(oid, OidDigits)
  }

  /** `ObjectId(text)`: exactly 24 hexadecimal digits, otherwise an invalid id. */
  function ParseOid(text: string): (r: Option<nat>)
    ensures r.Some? ==> |text| == OidDigits
  {
    if |text| == OidDigits then ParseHex(text) else None
  }

  lemma {:induction false} ParseRenderHex(n: nat, width: nat)
    requires n < Pow16(width)
    ensures ParseHex(RenderHex(n, width)) == Some(n)
  {
    if width > 0 {
      ParseRenderHex(n / 16, width - 1);
      var r := RenderHex(n, width);
      assert r[..|r| - 1] == RenderHex(n / 16, width - 1);
      assert HexValue(HexChar(n % 16)) == Some(n % 16);
    }
  }

  /** Reading back the text of an ObjectId gives the ObjectId. */
  lemma OidRoundTrip(oid: nat)
    requires oid < OidBound
    ensures ParseOid(OidText(oid)) == Some(oid)
  {
    ParseRenderHex(oid, OidDigits);
  }

  lemma {:induction false} RenderParseHex(s: string)
    requires ParseHex(s).Some?
    ensures ParseHex(s).value < Pow16(|s|)
    ensures RenderHex(ParseHex(s).value, |s|) == Text.AsciiLower(s)
  {
    if s != [] {
      var init := s[..|s| - 1];
      RenderParseHex(init);
      var v, d := ParseHex(init).value, HexValue(s[|s| - 1]).value;
      var n := v * 16 + d;
      assert n / 16 == v && n % 16 == d;
      assert HexChar(d) == Text.LowerChar(s[|s| - 1]);
      assert Text.AsciiLower(s) == Text.AsciiLower(init) + [Text.LowerChar(s[|s| - 1])];
    }
  }

  /** Every accepted id text names the ObjectId whose text is its lower-case form. */
  lemma ParseOidCaseInsensitive(text: string)
    requires ParseOid(text).Some?
    ensures ParseOid(text).value < OidBound
    ensures OidText(ParseOid(text).value) == Text.AsciiLower(text)
  {
    RenderParseHex(text);
  }

  // The collection

  /** One document of `contact_messages`: its `_id`, the message fields and the `updatedAt` a status update sets. */
  datatype StoredMessage = StoredMessage(oid: nat, msg: ContactMessage, updatedAt: Option<Timestamp>)

  /** The first document with the given `_id`. */
  function IndexOfOid(docs: seq<StoredMessage>, oid: nat): (r: Option<nat>)
    ensures r.None? ==> forall k :: 0 <= k < |docs| ==> docs[k].oid != oid
    ensures r.Some? ==> r.value < |docs| && docs[r.value].oid == oid && forall k :: 0 <= k < r.value ==> docs[k].oid != oid
  {
    if docs == [] then None
    else if docs[0].oid == oid then Some(0)
    else match IndexOfOid(docs[1..], oid)
      case None => None
      case Some(k) => Some(k + 1)
  }

  /** The `$set` of a status update applied to one document. */
  function SetStatus(d: StoredMessage, status: string, at: Timestamp): StoredMessage {
    d.(msg := d.msg.(status := status), updatedAt := Some(at))
  }

  /** The documents after `update_one({"_id": oid}, {"$set": ...})`. */
  function Updated(docs: seq<StoredMessage>, oid: nat, status: string, at: Timestamp): seq<StoredMessage> {
    match IndexOfOid(docs, oid)
    case None => docs
    case Some(k) => docs[k := SetStatus(docs[k], status, at)]
  }

  /** An update matches a document exactly when some document has that id; it changes that one document's status and update time and nothing else. */
  lemma UpdatedFacts(docs: seq<StoredMessage>, oid: nat, status: string, at: Timestamp)
    requires forall i, j :: 0 <= i < j < |docs| ==> docs[i].oid != docs[j].oid
    ensures var r := Updated(docs, oid, status, at);
      && |r| == |docs|
      && (forall k :: 0 <= k < |docs| ==> r[k].oid == docs[k].oid)
      && (forall k :: 0 <= k < |docs| && docs[k].oid != oid ==> r[k] == docs[k])
      && (forall k :: 0 <= k < |docs| && docs[k].oid == oid ==>
            r[k].msg == docs[k].msg.(status := status) && r[k].updatedAt == Some(at))
  {
  }

  /** The `contact_messages` collection. */
  class ContactStore {
    var documents: seq<StoredMessage>
    /** The next ObjectId to hand out. */
    var nextOid: nat

    /** Every `_id` is unused by any other document and was handed out before. */
    ghost predicate Valid()
      reads this
    {
      && nextOid <= OidBound
      && (forall k :: 0 <= k < |documents| ==> documents[k].oid < nextOid)
      && (forall i, j :: 0 <= i < j < |documents| ==> documents[i].oid != documents[j].oid)
    }

    constructor()
      ensures Valid() && documents == [] && nextOid == 0
    {
      documents := [];
      nextOid := 0;
    }

    /** `insert_one`: appends the document under a fresh `_id`; None once every ObjectId is taken. */
    method InsertOne(m: ContactMessage) returns (oid: Option<nat>)
      requires Valid()
      modifies this
      ensures Valid()
      ensures old(nextOid) < OidBound ==>
        oid == Some(old(nextOid)) && documents == old(documents) + [StoredMessage(old(nextOid), m, None)]
        && nextOid == old(nextOid) + 1
      ensures old(nextOid) == OidBound ==> oid.None? && documents == old(documents) && nextOid == old(nextOid)
    {
      if nextOid == OidBound {
        return None;
      }
      oid := Some(nextOid);
      documents := documents + [StoredMessage(nextOid, m, None)];
      nextOid := nextOid + 1;
    }

    /** `update_one` on `_id`, returning its `matched_count`. */
    method UpdateOne(oid: nat, status: string, at: Timestamp) returns (matched: nat)
      requires Valid()
      modifies this
      ensures Valid()
      ensures matched == (if IndexOfOid(old(documents), oid).Some? then 1 else 0)
      ensures documents == Updated(old(documents), oid, status, at) && nextOid == old(nextOid)
    {
      var k := IndexOfOid(documents, oid);
      if k.None? {
        return 0;
      }
      documents := documents[k.value := SetStatus(documents[k.value], status, at)];
      matched := 1;
    }
  }

  // Submitting a message

  const ThankYou: string := "Thank you for your message! I'll get back to you soon."
  const SubmitFailed: string := "An error occurred while processing your message"

  datatype SubmitResponse =
    | Submitted(message: string, messageId: string, submittedAt: Timestamp)
    | Invalid(errors: seq<FieldError>)
    | SubmitError(statusCode: int, detail: string)

  /** The stored form of a validated body: name and message stripped, email stripped and lower-cased. */
  function Normalised(c: ContactMessageCreate, id: string, now: Timestamp): (m: ContactMessage)
    ensures m.status == NewStatus && m.submittedAt == now && m.id == id
    ensures m.name == Text.Strip(c.name) && m.message == Text.Strip(c.message)
    ensures m.email == Text.AsciiLower(Text.Strip(c.email))
  {
    NewContactMessage(id, Text.Strip(c.name), Text.AsciiLower(Text.Strip(c.email)), Text.Strip(c.message), now)
  }

  /** `POST /contact`: a 422 with the field errors, or the stored message's id. */
  method SubmitContactMessage(store: ContactStore, body: RawContact, id: string, now: Timestamp)
    returns (r: SubmitResponse)
    requires store.Valid()
    modifies store
    ensures store.Valid()
    ensures ValidateContact(body).Err? ==>
      r == Invalid(ValidateContact(body).error) && store.documents == old(store.documents)
      && store.nextOid == old(store.nextOid)
    ensures ValidateContact(body).Ok? && old(store.nextOid) < OidBound ==>
      var m := Normalised(ValidateContact(body).value, id, now);
      && store.documents == old(store.documents) + [StoredMessage(old(store.nextOid), m, None)]
      && store.nextOid == old(store.nextOid) + 1
      && r == Submitted(ThankYou, OidText(old(store.nextOid)), now)
    ensures ValidateContact(body).Ok? && old(store.nextOid) == OidBound ==>
      r == SubmitError(500, SubmitFailed) && store.documents == old(store.documents)
      && store.nextOid == old(store.nextOid)
  {
    var validated := ValidateContact(body);
    if validated.Err? {
      return Invalid(validated.error);
    }
    var m := Normalised(validated.value, id, now);
    var oid := store.InsertOne(m);
    if oid.None? {
      return SubmitError(500, SubmitFailed);
    }
    r := Submitted(ThankYou, OidText(oid.value), now);
  }

  /** A valid email holds no whitespace, so stripping it changes nothing: only the case is normalised. */
  lemma StoredEmailIsLowered(email: string)
    requires EmailPattern(email)
    ensures Text.AsciiLower(Text.Strip(email)) == Text.AsciiLower(email)
  {
    var at, dot :| 0 < at && at + 1 < dot && dot + 2 < |email| && email[at] == '@' && email[dot] == '.'
      && AllLocal(email[..at]) && AllDomain(email[at + 1..dot]) && AllLetters(email[dot + 1..]);
    EmailPartsNoSpace(email, at, dot);
    Text.StripNoSpace(email);
  }

  lemma EmailPartsNoSpace(email: string, at: int, dot: int)
    requires 0 < at && at + 1 < dot && dot + 2 < |email| && email[at] == '@' && email[dot] == '.'
    requires AllLocal(email[..at]) && AllDomain(email[at + 1..dot]) && AllLetters(email[dot + 1..])
    ensures Text.NoSpace(email)
  {
    forall i | 0 <= i < |email| ensures !Text.IsSpace(email[i]) {
      if i < at {
        assert LocalChar(email[..at][i]);
      } else if at < i < dot {
        assert DomainChar(email[at + 1..dot][i - at - 1]);
      } else if i > dot {
        assert IsLetter(email[dot + 1..][i - dot - 1]);
      }
    }
  }

  // Listing messages

  const FetchFailed: string := "Failed to fetch messages"

  /** A listed document: its `_id` rewritten as text. */
  datatype ListedMessage = ListedMessage(id: string, msg: ContactMessage, updatedAt: Option<Timestamp>)

  datatype MessagePage = MessagePage(messages: seq<ListedMessage>, totalCount: nat, skip: int, limit: int)

  datatype ListResponse = Listed(page: MessagePage) | ListError(statusCode: int, detail: string)

  /** The status filter applies only when the status is truthy: an empty status filters nothing. */
  predicate Filters(status: Option<string>) {
    status.Some? && status.value != ""
  }

  predicate Matches(d: StoredMessage, status: Option<string>) {
    !Filters(status) || d.msg.status == status.value
  }

  /** The documents the query filter selects, in collection order. */
  function Matching(docs: seq<StoredMessage>, status: Option<string>): (r: seq<StoredMessage>)
    ensures |r| <= |docs|
    ensures forall k :: 0 <= k < |r| ==> r[k] in docs && Matches(r[k], status)
    ensures forall k :: 0 <= k < |docs| && Matches(docs[k], status) ==> docs[k] in r
  {
    if docs == [] then []
    else
      var rest := Matching(docs[1..], status);
      assert forall k :: 1 <= k < |docs| ==> docs[k] == docs[1..][k - 1];
      if Matches(docs[0], status) then [docs[0]] + rest else rest
  }

  /** The filter keeps every copy of a matching document and no copy of any other. */
  lemma {:induction false} MatchingCounts(docs: seq<StoredMessage>, status: Option<string>)
    ensures forall d :: multiset(Matching(docs, status))[d] == if Matches(d, status) then multiset(docs)[d] else 0
  {
    if docs != [] {
      MatchingCounts(docs[1..], status);
      Sorting.MultisetCons(docs);
      var r := Matching(docs, status);
      if Matches(docs[0], status) {
        Sorting.MultisetCons(r);
      }
    }
  }

  function SubmittedKey(d: StoredMessage): real {
    d.msg.submittedAt as real
  }

  /** `.sort("submittedAt", -1)`: newest first, documents with equal times kept in collection order. */
  function Newest(docs: seq<StoredMessage>): seq<StoredMessage> {
    Sorting.SortDesc(docs, SubmittedKey)
  }

  function Min(a: int, b: int): int {
    if a <= b then a else b
  }

  /** `.skip(skip).limit(limit)` and `to_list(length=limit)`: the next `limit` documents after `skip`. */
  function Window(docs: seq<StoredMessage>, skip: nat, limit: nat): (w: seq<StoredMessage>)
    ensures |w| <= limit
    ensures |w| == Min(limit, |docs| - Min(skip, |docs|))
    ensures forall k :: 0 <= k < |w| ==> w[k] == docs[skip + k]
  {
    docs[Min(skip, |docs|)..Min(skip + limit, |docs|)]
  }

  function Listing(d: StoredMessage): ListedMessage {
    ListedMessage(OidText(d.oid), d.msg, d.updatedAt)
  }

  /** The documents with their `_id` as text. */
  function Listings(docs: seq<StoredMessage>): (r: seq<ListedMessage>)
    ensures |r| == |docs|
    ensures forall k :: 0 <= k < |docs| ==> r[k] == Listing(docs[k])
  {
    if docs == [] then [] else Listings(docs[..|docs| - 1]) + [Listing(docs[|docs| - 1])]
  }

  /** The listing `GET /contact/messages` answers for the collection's documents. */
  function ListMessages(docs: seq<StoredMessage>, skip: int, limit: int, status: Option<string>): ListResponse {
    if skip < 0 || limit < 0 then ListError(500, FetchFailed)
    else
      var selected := Matching(docs, status);
      Listed(MessagePage(Listings(Window(Newest(selected), skip, limit)), |selected|, skip, limit))
  }

  /** The loop that rewrites each listed document's `_id` as its text. */
  method RenderIds(page: seq<StoredMessage>) returns (out: seq<ListedMessage>)
    ensures out == Listings(page)
  {
    out := [];
    var i := 0;
    while i < |page|
      invariant 0 <= i <= |page|
      invariant out == Listings(page[..i])
    {
      assert page[..i + 1][..i] == page[..i];
      out := out + [Listing(page[i])];
      i := i + 1;
    }
    assert page[..i] == page;
  }

  /** `GET /contact/messages?skip=&limit=&status=` (defaults 0 and 50). */
  method GetContactMessages(store: ContactStore, skip: Option<int>, limit: Option<int>, status: Option<string>)
    returns (r: ListResponse)
    ensures var s := if skip.Some? then skip.value else 0;
      var l := if limit.Some? then limit.value else 50;
      r == ListMessages(store.documents, s, l, status)
  {
    var s := if skip.Some? then skip.value else 0;
    var l := if limit.Some? then limit.value else 50;
    if s < 0 || l < 0 {
      return ListError(500, FetchFailed);
    }
    var selected := Matching(store.documents, status);
    var messages := RenderIds(Window(Newest(selected), s, l));
    r := Listed(MessagePage(messages, |selected|, s, l));
  }

  /**
   * A listing holds at most `limit` messages, all matching the filter, newest first; the total
   * counts every match, and the page is the matches' sorted order from position `skip` on.
   */
  lemma ListMessagesFacts(docs: seq<StoredMessage>, skip: int, limit: int, status: Option<string>)
    requires skip >= 0 && limit >= 0
    ensures var r := ListMessages(docs, skip, limit, status);
      var sorted := Newest(Matching(docs, status));
      && r.Listed? && r.page.totalCount == |Matching(docs, status)|
      && r.page.skip == skip && r.page.limit == limit
      && |r.page.messages| <= limit
      && |r.page.messages| <= r.page.totalCount
      && |r.page.messages| == Min(limit, r.page.totalCount - Min(skip, r.page.totalCount))
      && (forall k :: 0 <= k < |r.page.messages| ==>
            r.page.messages[k] == Listing(sorted[skip + k]) && Matches(sorted[skip + k], status))
      && (forall i, j :: 0 <= i < j < |r.page.messages| ==>
            r.page.messages[i].msg.submittedAt >= r.page.messages[j].msg.submittedAt)
  {
    var selected := Matching(docs, status);
    NewestMatch(selected, status);
    NewestWindowOrdered(selected, skip, limit);
    var w := Window(Newest(selected), skip, limit);
    assert ListMessages(docs, skip, limit, status).page.messages == Listings(w);
  }

  /** Sorting keeps the documents, so every sorted document still matches the filter. */
  lemma NewestMatch(selected: seq<StoredMessage>, status: Option<string>)
    requires forall k :: 0 <= k < |selected| ==> Matches(selected[k], status)
    ensures |Newest(selected)| == |selected|
    ensures forall k :: 0 <= k < |Newest(selected)| ==> Matches(Newest(selected)[k], status)
  {
    var sorted := Newest(selected);
    Sorting.SortDescFacts(selected, SubmittedKey);
    forall k | 0 <= k < |sorted| ensures Matches(sorted[k], status) {
      assert sorted[k] in multiset(sorted);
      assert sorted[k] in selected;
    }
  }

  /** A window of the newest-first order is itself newest first. */
  lemma NewestWindowOrdered(selected: seq<StoredMessage>, skip: nat, limit: nat)
    ensures var w := Window(Newest(selected), skip, limit);
      forall i, j :: 0 <= i < j < |w| ==> w[i].msg.submittedAt >= w[j].msg.submittedAt
  {
    var sorted := Newest(selected);
    Sorting.SortDescFacts(selected, SubmittedKey);
    var w := Window(sorted, skip, limit);
    forall i, j | 0 <= i < j < |w| ensures w[i].msg.submittedAt >= w[j].msg.submittedAt {
      assert SubmittedKey(sorted[skip + i]) >= SubmittedKey(sorted[skip + j]);
    }
  }

  /** Listing ids are distinct: different ObjectIds always get different texts. */
  lemma OidTextInjective(a: nat, b: nat)
    requires a < OidBound && b < OidBound && OidText(a) == OidText(b)
    ensures a == b
  {
    OidRoundTrip(a);
    OidRoundTrip(b);
  }

  // Updating a status

  const StatusUpdatedPrefix: string := "Message status updated to "
  const InvalidStatus: string := "Invalid status value"
  const MessageNotFound: string := "Message not found"
  const UpdateFailed: string := "Failed to update message status"

  /** The statuses a message may be given. */
  const ReadStatus: string := "read"
  const RespondedStatus: string := "responded"
  const Statuses: seq<string> := [NewStatus, ReadStatus, RespondedStatus]

  datatype UpdateResponse = StatusUpdated(message: string) | UpdateError(statusCode: int, detail: string)

  /** `PUT /contact/messages/{message_id}/status?new_status=`. */
  method UpdateMessageStatus(store: ContactStore, messageId: string, newStatus: string, now: Timestamp)
    returns (r: UpdateResponse)
    requires store.Valid()
    modifies store
    ensures store.Valid() && store.nextOid == old(store.nextOid)
    ensures newStatus !in Statuses ==> r == UpdateError(400, InvalidStatus) && store.documents == old(store.documents)
    ensures newStatus in Statuses && ParseOid(messageId).None? ==>
      r == UpdateError(500, UpdateFailed) && store.documents == old(store.documents)
    ensures newStatus in Statuses && ParseOid(messageId).Some? ==>
      var oid := ParseOid(messageId).value;
      && store.documents == Updated(old(store.documents), oid, newStatus, now)
      && (IndexOfOid(old(store.documents), oid).None? ==> r == UpdateError(404, MessageNotFound))
      && (IndexOfOid(old(store.documents), oid).Some? ==> r == StatusUpdated(StatusUpdatedPrefix + newStatus))
  {
    if newStatus !in Statuses {
      return UpdateError(400, InvalidStatus);
    }
    var oid := ParseOid(messageId);
    if oid.None? {
      return UpdateError(500, UpdateFailed);
    }
    var matched := store.UpdateOne(oid.value, newStatus, now);
    if matched == 0 {
      return UpdateError(404, MessageNotFound);
    }
    r := StatusUpdated(StatusUpdatedPrefix + newStatus);
  }

  /** Every status a message can hold is one of the three statuses: submission sets "new" and updates only allow the three. */
  predicate StatusesKnown(docs: seq<StoredMessage>) {
    forall k :: 0 <= k < |docs| ==> KnownStatus(docs[k].msg.status)
  }

  predicate KnownStatus(s: string) {
    s == NewStatus || s == ReadStatus || s == RespondedStatus
  }

  /** The whitelist holds exactly the three statuses. */
  lemma StatusesAreKnown(s: string)
    ensures s in Statuses <==> KnownStatus(s)
  {
    assert Statuses[0] == NewStatus && Statuses[1] == ReadStatus && Statuses[2] == RespondedStatus;
  }

  lemma UpdateKeepsStatusesKnown(docs: seq<StoredMessage>, oid: nat, status: string, at: Timestamp)
    requires StatusesKnown(docs) && status in Statuses
    ensures StatusesKnown(Updated(docs, oid, status, at))
  {
    StatusesAreKnown(status);
  }

  /** A submitted message has status "new", so appending it keeps every status known. */
  lemma InsertKeepsStatusesKnown(docs: seq<StoredMessage>, d: StoredMessage)
    requires StatusesKnown(docs) && d.msg.status == NewStatus
    ensures StatusesKnown(docs + [d])
  {
    var r := docs + [d];
    assert forall k :: 0 <= k < |docs| ==> r[k] == docs[k];
    assert r[|docs|] == d;
  }

}
