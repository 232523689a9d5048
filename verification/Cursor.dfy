/** The opaque cursor: a JSON object in unpadded base64url, and the keyset position it carries. */
module Cursor {
  import opened Wrappers
  import Base64Url
  import Json
  import Orders
  import StringOrder
  import opened Paging

  function ByteAt(text: string, i: nat): Base64Url.Byte
    requires Base64Url.Ascii(text) && i < |text|
  {
    assert text[i] in text;
    text[i] as int
  }

  function ToBytes(text: string): seq<Base64Url.Byte>
    requires Base64Url.Ascii(text)
  {
    seq<Base64Url.Byte>(|text|, i requires 0 <= i < |text| => ByteAt(text, i))
  }

  function FromBytes(bytes: seq<Base64Url.Byte>): Option<string> {
    if forall b :: b in bytes ==> b < 128
    then Some(seq(|bytes|, i requires 0 <= i < |bytes| => bytes[i] as char))
    else None
  }

  ghost function EncodeCursor(payload: map<string, string>): string {
    DumpsAscii(payload);
    Base64Url.Encode(ToBytes(Json.Dumps(payload)))
  }

  function DecodeCursor(cursor: string): Option<map<string, string>> {
    match Base64Url.Decode(cursor)
    case None => None
    case Some(bytes) =>
      match FromBytes(bytes)
      case None => None
      case Some(text) => Json.Loads(text)
  }

  lemma {:induction false} EscapeAscii(s: string)
    ensures Base64Url.Ascii(Json.Escape(s))
  {
    if s != "" {
      EscapeAscii(s[1..]);
      EscapeCharAscii(s[0]);
    }
  }

  lemma Hex4Ascii(n: Json.CodeUnit)
    ensures Base64Url.Ascii(Json.UnicodeEscape(n))
  {
    var h := Json.Hex4(n);
    assert forall c :: c in h ==> c == h[0] || c == h[1] || c == h[2] || c == h[3];
  }

  lemma EscapeCharAscii(c: char)
    ensures Base64Url.Ascii(Json.EscapeChar(c))
  {
    var n := c as int;
    if n >= 0x10000 {
      Hex4Ascii(0xD800 + (n - 0x10000) / 1024);
      Hex4Ascii(0xDC00 + (n - 0x10000) % 1024);
    } else if |Json.EscapeChar(c)| > 2 {
      Hex4Ascii(n);
    }
  }

  lemma {:induction false} MembersAscii(keys: seq<string>, m: map<string, string>)
    requires keys != [] && forall k :: k in keys ==> k in m
    ensures Base64Url.Ascii(Json.Members(keys, m))
  {
    EscapeAscii(keys[0]);
    EscapeAscii(m[keys[0]]);
    if |keys| > 1 {
      MembersAscii(keys[1..], m);
    }
  }

  lemma DumpsAscii(m: map<string, string>)
    ensures Base64Url.Ascii(Json.Dumps(m))
  {
    var keys := StringOrder.SortedStrings(m.Keys);
    if keys != [] {
      MembersAscii(keys, m);
    }
  }

  /** The cursor a client sends back is the payload the server put in, for any map of strings. */
  lemma CursorRoundTrip(payload: map<string, string>)
    ensures DecodeCursor(EncodeCursor(payload)) == Some(payload)
  {
    var text := Json.Dumps(payload);
    DumpsAscii(payload);
    Base64Url.RoundTrip(ToBytes(text));
    assert FromBytes(ToBytes(text)) == Some(text) by {
      assert forall i :: 0 <= i < |text| ==> text[i] in text;
      assert FromBytes(ToBytes(text)).value == text;
    }
    Json.LoadsDumps(payload);
  }

  lemma CursorInjective(p: map<string, string>, q: map<string, string>)
    requires EncodeCursor(p) == EncodeCursor(q)
    ensures p == q
  {
    CursorRoundTrip(p);
    CursorRoundTrip(q);
  }

  /** How timestamps and identifiers are written as text, and read back. */
  datatype Texts = Texts(iso: int -> string, fromIso: string -> Option<int>,
                         uuid: nat -> string, fromUuid: string -> Option<nat>)
  {
    ghost predicate Faithful() {
      && (forall at :: fromIso(iso(at)) == Some(at))
      && (forall id: nat :: fromUuid(uuid(id)) == Some(id))
    }
  }

  ghost function NextCursor(t: Texts, p: Position): string {
    EncodeCursor(map["at" := t.iso(p.at), "id" := t.uuid(p.id)])
  }

  /** A cursor that is no position is refused; none at all starts from the top. */
  function PositionFrom(t: Texts, cursor: Option<string>): Result<Option<Position>, string> {
    if cursor.None? then Ok(None) else
    match DecodeCursor(cursor.value)
    case None => Err("The cursor is malformed.")
    case Some(payload) =>
      if "at" !in payload || "id" !in payload then Err("The cursor is malformed.") else
      match (t.fromIso(payload["at"]), t.fromUuid(payload["id"]))
      case (Some(at), Some(id)) => Ok(Some(Position(at, id)))
      case _ => Err("The cursor is malformed.")
  }

  /** The position a cursor stands for: its payload has a time and an identifier, and both read. */
  ghost predicate StandsFor(t: Texts, cursor: string, p: Position) {
    exists payload :: DecodeCursor(cursor) == Some(payload) && "at" in payload && "id" in payload
                      && t.fromIso(payload["at"]) == Some(p.at) && t.fromUuid(payload["id"]) == Some(p.id)
  }

  /** No cursor starts from the top; any other has to stand for a position, and one that does not is refused. */
  lemma PositionExactly(t: Texts, cursor: Option<string>)
    ensures PositionFrom(t, cursor) == Ok(None) <==> cursor.None?
    ensures forall p :: PositionFrom(t, cursor) == Ok(Some(p)) <==> cursor.Some? && StandsFor(t, cursor.value, p)
    ensures PositionFrom(t, cursor).Err? <==> cursor.Some? && forall p :: !StandsFor(t, cursor.value, p)
  {
    if cursor.Some? {
      hide DecodeCursor;
      forall p ensures PositionFrom(t, cursor) == Ok(Some(p)) <==> StandsFor(t, cursor.value, p) {
      }
      if PositionFrom(t, cursor).Ok? {
        var p := PositionFrom(t, cursor).value.value;
        assert StandsFor(t, cursor.value, p);
      }
    }
  }

  /** A request with such a cursor gets the page after that position; with any other, no page. */
  lemma RespondExactly(t: Texts, request: Request, cursor: Option<string>)
    requires Keyed(request.table)
    ensures var response := Respond(t, request, cursor);
      && (response.Err? <==> cursor.Some? && forall p :: !StandsFor(t, cursor.value, p))
      && (forall after: Option<Position> ::
            (if after.Some? then cursor.Some? && StandsFor(t, cursor.value, after.value) else cursor.None?) ==>
              && response.Ok? && response.value.items == Fetch(request.table, request.limit, after).items
              && response.value.next == match Fetch(request.table, request.limit, after).next
                                        case None => None
                                        case Some(p) => Some(NextCursor(t, p)))
  {
    PositionExactly(t, cursor);
    hide PositionFrom, StandsFor, Fetch, NextCursor;
  }

  // ---- The text of a cursor -----------------------------------------------------------------

  /** Characters that JSON writes as they are. */
  predicate Verbatim(s: string) {
    forall c :: c in s ==> ' ' <= c <= '~' && c != '"' && c != '\\'
  }

  lemma {:induction false} EscapeVerbatim(s: string)
    requires Verbatim(s)
    ensures Json.Escape(s) == s
  {
    hide Json.EscapeChar;
    if s != "" {
      assert s[0] in s && forall c :: c in s[1..] ==> c in s;
      EscapeVerbatim(s[1..]);
      VerbatimChar(s[0]);
      assert s == [s[0]] + s[1..];
    }
  }

  lemma VerbatimChar(c: char)
    requires ' ' <= c <= '~' && c != '"' && c != '\\'
    ensures Json.EscapeChar(c) == [c]
  {
  }

  lemma TwoKeys()
    ensures StringOrder.SortedStrings({"at", "id"}) == ["at", "id"]
  {
    var keys: seq<string> := ["at", "id"];
    assert "at"[0] == 'a' && "id"[0] == 'i';
    StringOrder.StringsOrdered({"at", "id"});
    assert StringOrder.StringBefore("at", "id");
    Orders.ListingUnique(StringOrder.StringBefore, {"at", "id"}, keys, StringOrder.SortedStrings({"at", "id"}));
  }

  /** Before it is encoded the cursor is an object of two members, the time and then the identifier, without spaces. */
  lemma CursorText(at: string, id: string)
    requires Verbatim(at) && Verbatim(id)
    ensures Json.Dumps(map["at" := at, "id" := id]) == "{\"at\":\"" + at + "\",\"id\":\"" + id + "\"}"
  {
    var m := map["at" := at, "id" := id];
    assert m.Keys == {"at", "id"};
    assert "at"[0] != "id"[0];
    TwoKeys();
    EscapeVerbatim("at");
    EscapeVerbatim("id");
    EscapeVerbatim(at);
    EscapeVerbatim(id);
    hide Json.Escape, StringOrder.SortedStrings;
    var keys: seq<string> := ["at", "id"];
    assert keys[1..] == ["id"] && ["id"][1..] == [];
    MembersText(at, id, m);
  }

  lemma MembersText(at: string, id: string, m: map<string, string>)
    requires m == map["at" := at, "id" := id] && m["at"] == at && m["id"] == id
    requires Json.Escape("at") == "at" && Json.Escape("id") == "id" && Json.Escape(at) == at && Json.Escape(id) == id
    ensures "{" + Json.Members(["at", "id"], m) == "{\"at\":\"" + at + "\",\"id\":\"" + id + "\"}"
  {
    hide Json.Escape;
    var keys: seq<string> := ["at", "id"];
    assert keys[1..] == ["id"] && ["id"][1..] == [];
    assert Json.Members(["id"], m) == "\"id\":\"" + id + "\"}";
  }

  lemma PositionSurvives(t: Texts, p: Position)
    requires t.Faithful()
    ensures PositionFrom(t, Some(NextCursor(t, p))) == Ok(Some(p))
  {
    CursorRoundTrip(map["at" := t.iso(p.at), "id" := t.uuid(p.id)]);
  }

  /** What the endpoint answers: a page whose cursor is text. */
  ghost function Respond(t: Texts, request: Request, cursor: Option<string>): Result<Page<string>, string>
    requires Keyed(request.table)
  {
    match PositionFrom(t, cursor)
    case Err(e) => Err(e)
    case Ok(after) =>
      var page := Fetch(request.table, request.limit, after);
      Ok(Page(page.items, if page.next.None? then None else Some(NextCursor(t, page.next.value))))
  }

  /** What a client collects when it sends each cursor back as it received it. */
  ghost function Follow(t: Texts, requests: seq<Request>, cursor: Option<string>): Option<seq<Row>>
    requires Requests(requests)
  {
    if requests == [] then Some([]) else
    match Respond(t, requests[0], cursor)
    case Err(_) => None
    case Ok(page) =>
      if page.next.None? then Some(page.items) else
      match Follow(t, requests[1..], page.next)
      case None => None
      case Some(rest) => Some(page.items + rest)
  }

  /** Through the text of its cursors a client walks exactly the keyset positions, and is never refused. */
  lemma {:induction false} FollowIsWalk(t: Texts, requests: seq<Request>, after: Option<Position>)
    requires t.Faithful() && Requests(requests)
    ensures Follow(t, requests, if after.None? then None else Some(NextCursor(t, after.value)))
      == Some(Walk(requests, after))
  {
    if requests != [] {
      if after.Some? {
        PositionSurvives(t, after.value);
      }
      var page := Fetch(requests[0].table, requests[0].limit, after);
      if page.next.Some? {
        TailRequests(requests);
        FollowIsWalk(t, requests[1..], page.next);
      }
    }
  }
}
