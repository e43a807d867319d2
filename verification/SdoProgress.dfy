/** The positive half of the SDO gateway: what a master writes reaches the model as it was
    written, and what the model answers reaches the master and the local dictionary. */
module SdoProgress {
  import opened Words
  import opened Wrappers
  import opened OctetValues
  import opened Codec
  import opened HexCodec
  import opened AsyncClient
  import AsyncProgress
  import opened SdoGateway

  // ---- Requests as a master writes them ----

  datatype Transfer = Upload | Expedited(value: Octets) | ExpeditedUnsized(value: Octets) | Normal(value: Octets)

  predicate Sized(t: Transfer) {
    t.Upload? || 1 <= |t.value| <= 4
  }

  function CommandFor(t: Transfer): bv8
    requires Sized(t)
  {
    match t
    case Upload => 0x40
    case Expedited(value) =>
      if |value| == 1 then 0x2f else if |value| == 2 then 0x2b else if |value| == 3 then 0x27 else 0x23
    case ExpeditedUnsized(_) => 0x22
    case Normal(_) => 0x21
  }

  function PayloadFor(t: Transfer): (p: Octets)
    requires Sized(t)
    ensures 4 <= |p| <= 8
  {
    match t
    case Upload => Zeros(4)
    case Expedited(value) => value + Zeros(4 - |value|)
    case ExpeditedUnsized(value) => value + Zeros(4 - |value|)
    case Normal(value) => LittleEndian(|value|, 4) + value
  }

  /** A mailbox message: announced length, the other header fields, command, index,
      subindex, payload. */
  function Framed(header: Octets, key: Key, t: Transfer): (data: Octets)
    requires |header| == 6 && Sized(t)
    ensures |data| >= PAYLOAD + 4
  {
    LittleEndian(6 + |PayloadFor(t)|, 2) + header + [CommandFor(t)]
    + LittleEndian(key.0, 2) + LittleEndian(key.1, 1) + PayloadFor(t)
  }

  predicate OnWire(key: Key) {
    key.0 < 0x1_0000 && key.1 < 0x100
  }

  lemma SpanOfTwo()
    ensures Span(1) == 0x100 && Span(2) == 0x1_0000
  {
    assert Span(1) == 256;
  }

  /** The fields of a message stand where the gateway reads them. */
  lemma FramedReads(header: Octets, key: Key, t: Transfer)
    requires |header| == 6 && Sized(t) && OnWire(key)
    ensures var data := Framed(header, key, t);
            && FromLittleEndian(data[0..2]) == 6 + |PayloadFor(t)| == |data| - 6
            && KeyOf(data) == key && data[8] == CommandFor(t) && data[12..] == PayloadFor(t)
  {
    hide LittleEndian, FromLittleEndian, CommandFor, PayloadFor, Span;
    var data := Framed(header, key, t);
    SpanOfTwo();
    FromLittleEndianOf(6 + |PayloadFor(t)|, 2);
    FromLittleEndianOf(key.0, 2);
    FromLittleEndianOf(key.1, 1);
    assert data[0..2] == LittleEndian(6 + |PayloadFor(t)|, 2);
    assert data[9..11] == LittleEndian(key.0, 2);
    assert data[11..12] == LittleEndian(key.1, 1);
  }

  lemma CommandBits(t: Transfer)
    requires Sized(t)
    ensures var c := CommandFor(t);
            && c & 0x10 == 0 && c >> 5 == (if t.Upload? then 2 else 1)
            && (c & 2 != 0 <==> t.Expedited? || t.ExpeditedUnsized?)
            && (!t.Upload? ==> (c & 1 != 0 <==> !t.ExpeditedUnsized?))
            && (t.Expedited? ==> Unused(c) == 4 - |t.value|)
  {
  }

  /** The dictionary lets this object be transferred this way. */
  predicate Allowed(w: World, key: Key, t: Transfer) {
    && key in w.owned && key in w.dictionary && 1 <= SizeOf(w.dictionary[key]) <= 4
    && (if t.Upload? then w.dictionary[key].readable
        else w.dictionary[key].writable && |t.value| == SizeOf(w.dictionary[key]))
  }

  function ValueOf(t: Transfer): Option<Octets> {
    if t.Upload? then None else Some(t.value)
  }

  /** What a master writes about an object that allows it is accepted, whatever the form of
      the transfer, with the value it wrote. */
  lemma WellFormedIsAccepted(w: World, header: Octets, key: Key, t: Transfer)
    requires |header| == 6 && Sized(t) && OnWire(key) && Allowed(w, key, t)
    ensures Check(Framed(header, key, t), w.owned, w.dictionary)
            == Accepted(key, SizeOf(w.dictionary[key]), ValueOf(t))
  {
    hide LittleEndian, FromLittleEndian, CommandFor, Unused, KeyOf, Framed, SizeOf;
    var data := Framed(header, key, t);
    FramedReads(header, key, t);
    CommandBits(t);
    if !t.Upload? {
      ValueIsRead(data, t);
    }
  }

  /** The value stands behind the length it needs. */
  lemma ValueIsRead(data: Octets, t: Transfer)
    requires Sized(t) && !t.Upload? && |data| >= 16 && data[12..] == PayloadFor(t)
    ensures t.Normal? ==> FromLittleEndian(data[12..16]) == |t.value| && |data| == 16 + |t.value|
    ensures t.Normal? ==> data[16..16 + |t.value|] == t.value
    ensures !t.Normal? ==> |data| == 16 && data[12..12 + |t.value|] == t.value
  {
    hide LittleEndian, FromLittleEndian, CommandFor;
    var payload := PayloadFor(t);
    if t.Normal? {
      SpanOfFour();
      FromLittleEndianOf(|t.value|, 4);
      assert data[12..16] == payload[..4] == LittleEndian(|t.value|, 4);
      assert data[16..16 + |t.value|] == payload[4..] == t.value;
    } else {
      assert data[12..12 + |t.value|] == payload[..|t.value|] == t.value;
    }
  }

  // ---- Answers as a master reads them ----

  /** The only reply aborts with this code, and the local dictionary keeps everything. */
  predicate Aborted(v: World, x: World, code: nat) {
    && |x.message.replies| == 1 && |x.message.replies[0]| >= 16
    && AbortCode(x.message.replies[0]) == Some(code % 0x1_0000_0000) && x.dictionary == v.dictionary
  }

  predicate Took(v: World, x: World, key: Key, value: Octets) {
    key in v.dictionary && x.dictionary == v.dictionary[key := v.dictionary[key].(data := value)]
  }

  /** The only reply confirms a download, and the local object takes the value. */
  predicate Stored(v: World, x: World, key: Key, value: Octets) {
    && |x.message.replies| == 1 && |x.message.replies[0]| >= 16 && x.message.replies[0][8] == 0x60
    && AbortCode(x.message.replies[0]).None? && Took(v, x, key, value)
  }

  /** The only reply uploads the value, and the local object takes it too. */
  predicate Fetched(v: World, x: World, key: Key, value: Octets) {
    && |x.message.replies| == 1 && |x.message.replies[0]| >= 16
    && UploadValue(x.message.replies[0]) == Some(value) && Took(v, x, key, value)
  }

  /** What a request came to is what the master reads and what the local object holds: the
      octets that were written, or the octets the model answered. */
  predicate Reported(v: World, x: World, r: Request, size: nat, outcome: Outcome<Answer>) {
    match outcome
    case Exception => Aborted(v, x, 0x0800_0000)
    case Value(answer) =>
      match answer.error
      case ErrorCode(code) => Aborted(v, x, code)
      case ErrorWithoutCode => Aborted(v, x, 0x0800_0000)
      case NoError =>
        if r.Write? then Unhex(r.text, size).Some? && Stored(v, x, r.key, Unhex(r.text, size).value)
        else if answer.data.None? || Unhex(answer.data.value, size).None? then Aborted(v, x, 0x0800_0000)
        else Fetched(v, x, r.key, Unhex(answer.data.value, size).value)
  }

  lemma AbortReads(data: Octets, code: nat)
    requires |data| >= PAYLOAD
    ensures |AbortReply(data, code)| >= 16 && AbortCode(AbortReply(data, code)) == Some(code % 0x1_0000_0000)
  {
    hide AbortReply, AbortCode;
    RepliesDecode(data, [0], code);
  }

  lemma DownloadReads(data: Octets, value: Octets)
    requires |data| >= PAYLOAD && |value| <= 4
    ensures var reply := SuccessReply(data, true, value);
            |reply| >= 16 && reply[8] == 0x60 && AbortCode(reply).None?
  {
    CommandOctet(data);
    var d := WithHeaders(Padded(data), SDO_RESPONSE, SuccessCommand(true, |value|));
    assert SuccessReply(data, true, value)[8] == d[8];
  }

  /** The headers of a reply: ten octets announced, the CoE service, the address of the
      request; a reply keeps the length of a full mailbox buffer. */
  predicate Heads(reply: Octets, data: Octets, service: bv8)
    requires |data| >= PAYLOAD
  {
    && |reply| == (if |data| >= 16 then |data| else 16) && FromLittleEndian(reply[0..2]) == 10
    && reply[7] & 0xf0 == service && reply[7] & 0x0f == data[7] & 0x0f
    && Addressed(reply) == Addressed(data) && reply[2..7] == data[2..7]
  }

  lemma HeadersAre(data: Octets, service: bv8, command: bv8)
    requires |data| >= PAYLOAD && service & 0x0f == 0
    ensures Heads(WithHeaders(Padded(data), service, command), data, service)
  {
    hide LittleEndian, FromLittleEndian, OctetValue;
    SpanOfTwo();
    FromLittleEndianOf(10, 2);
    var d := WithHeaders(Padded(data), service, command);
    assert d[0..2] == LittleEndian(10, 2);
    ServiceOctet(data[7], service);
    assert d[2..7] == Padded(data)[2..7] == data[2..7];
  }

  lemma ServiceOctet(octet: bv8, service: bv8)
    requires service & 0x0f == 0
    ensures ((octet & 0x0f) | service) & 0xf0 == service && ((octet & 0x0f) | service) & 0x0f == octet & 0x0f
  {
  }

  lemma HeadsKept(reply: Octets, d: Octets, data: Octets, service: bv8)
    requires |data| >= PAYLOAD && Heads(d, data, service) && |reply| == |d| && reply[..12] == d[..12]
    ensures Heads(reply, data, service)
  {
    hide FromLittleEndian, OctetValue;
    assert reply[0..2] == reply[..12][0..2] == d[0..2];
    assert reply[2..7] == reply[..12][2..7] == d[2..7];
    assert forall i :: 0 <= i < 12 ==> reply[i] == reply[..12][i] == d[i];
  }

  /** Both replies carry the headers a master matches with its request. */
  lemma RepliesAreAddressed(data: Octets, write: bool, value: Octets, code: nat)
    requires |data| >= PAYLOAD && |value| <= 4
    ensures Heads(AbortReply(data, code), data, 0x20)
    ensures Heads(SuccessReply(data, write, value), data, 0x30)
  {
    hide LittleEndian, FromLittleEndian, SuccessCommand, Heads, WithHeaders, Padded;
    HeadersAre(data, 0x20, 0x80);
    HeadersAre(data, 0x30, SuccessCommand(write, |value|));
    HeadsKept(AbortReply(data, code), WithHeaders(Padded(data), 0x20, 0x80), data, 0x20);
    HeadsKept(SuccessReply(data, write, value), WithHeaders(Padded(data), 0x30, SuccessCommand(write, |value|)), data, 0x30);
  }

  /** Concluding reports the outcome. */
  lemma ConcludeReports(w: World, outcome: Outcome<Answer>)
    requires Wellformed(w) && w.message.replies == [] && Check(w.message.data, w.owned, w.dictionary).Accepted?
    ensures var c := Check(w.message.data, w.owned, w.dictionary);
            Reported(w, Conclude(w, c, outcome), RequestOf(c), c.size, outcome)
  {
    hide Check, AbortReply, SuccessReply, AbortCode, UploadValue, Hex, Unhex;
    var c := Check(w.message.data, w.owned, w.dictionary);
    var verdict := Judge(c, outcome);
    JudgedSize(w, outcome);
    if c.value.Some? {
      UnhexHex(c.value.value);
    }
    match verdict
    case Deny(code) => AbortReads(w.message.data, code);
    case Commit(value) =>
      if c.value.Some? {
        DownloadReads(w.message.data, value);
      } else {
        RepliesDecode(w.message.data, value, 0);
      }
  }

  /** After any run: as soon as the job of an unanswered message has come to something, the
      next poll reports exactly that. */
  lemma OutcomeIsReported(w: World, events: seq<Event>, outcome: Outcome<Answer>)
    requires Wellformed(w) && w.message.pending.None? && w.message.replies == [] && Inv(w.client)
    requires var v := RunFrom(w, events);
             && v.message.pending.Some? && v.message.replies == [] && v.client.worker != Joined
             && Settlement(v.message.pending.value, outcome) in v.client.settled
    ensures var v, key := RunFrom(w, events), Addressed(w.message.data);
            && v.message.pending.value < |v.client.messages| && key in w.dictionary
            && CarriesMessage(v.client.messages[v.message.pending.value], w.message.data, SizeOf(w.dictionary[key]))
            && Reported(v, PollOnce(v), v.client.messages[v.message.pending.value], SizeOf(w.dictionary[key]), outcome)
  {
    hide Check, Reported, Conclude, RequestOf, Addressed, CarriesMessage, Inv, Find, AnswersOwn, Next, SizeOf;
    var v, data := RunFrom(w, events), w.message.data;
    var c := Check(data, w.owned, w.dictionary);
    OneRequestOneReply(w, events);
    ShapeDecidesCheck(data, w.owned, w.dictionary, v.dictionary);
    AcceptedFits(data, w.owned, w.dictionary);
    RunKeepsClientInv(w, events);
    InvIsOnce(v.client);
    AsyncProgress.FindsTheOne(v.client.settled, v.message.pending.value, outcome);
    SecondPollConcludes(v, outcome);
    ConcludeReports(v, outcome);
  }

  lemma InvIsOnce(c: Client<Request, Answer>)
    requires Inv(c)
    ensures OnceEach(c.settled)
  {
  }

  // ---- A whole exchange ----

  /** A master writes or reads an object that allows it, the idle model answers, and the
      master gets exactly this answer: the model was asked for this object with the octets
      the master wrote, and the local object takes the octets written or read. */
  lemma WholeExchange(w: World, header: Octets, key: Key, t: Transfer, answer: Answer)
    requires |header| == 6 && Sized(t) && OnWire(key) && Allowed(w, key, t)
    requires w.message == Message(Framed(header, key, t), None, [])
    requires AsyncProgress.Idle(w.client) && w.client.jobs == [] && Inv(w.client)
    ensures var r := Asked(key, t);
            var x := RunFrom(w, [Poll, ClientStep(Take), ClientStep(Succeed(answer)), Poll]);
            && x.client.messages == w.client.messages + [r]
            && (r.Write? ==> Unhex(r.text, SizeOf(w.dictionary[key])) == Some(t.value))
            && Reported(w, x, r, SizeOf(w.dictionary[key]), Value(answer))
  {
    hide Check, Framed, Reported, Inv, AsyncClient.Next, Hex, Unhex, SizeOf;
    var c := Accepted(key, SizeOf(w.dictionary[key]), ValueOf(t));
    WellFormedIsAccepted(w, header, key, t);
    if !t.Upload? {
      UnhexHex(t.value);
    }
    Exchange(w, answer);
  }

  function Asked(key: Key, t: Transfer): Request {
    if t.Upload? then Read(key) else Write(key, Hex(t.value))
  }

  /** The first poll of an accepted message submits it and waits. */
  lemma FirstPollSubmits(w: World)
    requires Wellformed(w) && w.message.pending.None? && w.message.replies == []
    requires Check(w.message.data, w.owned, w.dictionary).Accepted?
    requires AsyncProgress.Idle(w.client) && w.client.jobs == [] && Inv(w.client)
    ensures var c, job := Check(w.message.data, w.owned, w.dictionary), |w.client.messages|;
            var d := Next(w.client, Submit(RequestOf(c)));
            && PollOnce(w) == w.(client := d, message := w.message.(pending := Some(job)))
            && AsyncProgress.Idle(d) && d.jobs == [job] && Inv(d) && d.messages == w.client.messages + [RequestOf(c)]
  {
    hide Check, RequestOf, Inv, Conclude, IsSettled;
    var c, job := Check(w.message.data, w.owned, w.dictionary), |w.client.messages|;
    var d := Next(w.client, Submit(RequestOf(c)));
    NextKeepsInv(w.client, Submit(RequestOf(c)));
    assert d.jobs == [job] && d.settled == w.client.settled;
    FindsSettled(d.settled, job);
    NotYetSettled(w.client);
  }

  lemma NotYetSettled(c: Client<Request, Answer>)
    requires Inv(c)
    ensures !IsSettled(c.settled, |c.messages|)
  {
    hide IsSettled;
  }

  lemma Unrolls(w: World, a: Event, b: Event, c: Event, d: Event)
    requires Wellformed(w)
    ensures var x := After(w, a);
            && Wellformed(x) && Wellformed(After(x, b)) && Wellformed(After(After(x, b), c))
            && RunFrom(w, [a, b, c, d]) == After(After(After(x, b), c), d)
  {
    hide After;
    RunAppends(w, [], a);
    RunAppends(w, [a], b);
    RunAppends(w, [a, b], c);
    RunAppends(w, [a, b, c], d);
    assert [] + [a] == [a] && [a] + [b] == [a, b] && [a, b] + [c] == [a, b, c] && [a, b, c] + [d] == [a, b, c, d];
  }

  /** Poll, serve, poll: the second poll reports the answer to the request of the first. */
  lemma Exchange(w: World, answer: Answer)
    requires Wellformed(w) && w.message.pending.None? && w.message.replies == []
    requires Check(w.message.data, w.owned, w.dictionary).Accepted?
    requires AsyncProgress.Idle(w.client) && w.client.jobs == [] && Inv(w.client)
    ensures var c := Check(w.message.data, w.owned, w.dictionary);
            var x := RunFrom(w, [Poll, ClientStep(Take), ClientStep(Succeed(answer)), Poll]);
            && x.client.messages == w.client.messages + [RequestOf(c)]
            && Reported(w, x, RequestOf(c), c.size, Value(answer))
  {
    hide Check, Reported, RequestOf, Inv, AsyncClient.Next, Find, PollOnce, OnceEach;
    var c, job := Check(w.message.data, w.owned, w.dictionary), |w.client.messages|;
    FirstPollSubmits(w);
    var v1 := PollOnce(w);
    var served := Next(Next(v1.client, Take), Succeed(answer));
    AsyncProgress.RoundServesFront(v1.client, answer);
    NextKeepsInv(v1.client, Take);
    NextKeepsInv(Next(v1.client, Take), Succeed(answer));
    InvIsOnce(served);
    var v3 := v1.(client := served);
    Unrolls(w, Poll, ClientStep(Take), ClientStep(Succeed(answer)), Poll);
    assert served.settled[|served.settled| - 1] == Settlement(job, Value(answer));
    AsyncProgress.FindsTheOne(served.settled, job, Value(answer));
    SecondPollConcludes(v3, Value(answer));
    ConcludeReports(v3, Value(answer));
    SameDictionary(w, v3, PollOnce(v3), RequestOf(c), c.size, Value(answer));
  }

  lemma SecondPollConcludes(w: World, outcome: Outcome<Answer>)
    requires Wellformed(w) && w.message.pending.Some? && w.message.replies == [] && w.client.worker != Joined
    requires Check(w.message.data, w.owned, w.dictionary).Accepted?
    requires Find(w.client.settled, w.message.pending.value) == Some(outcome)
    ensures PollOnce(w) == Conclude(w, Check(w.message.data, w.owned, w.dictionary), outcome)
    ensures PollOnce(w).client == w.client
  {
    hide Check, Judge, AbortReply, SuccessReply;
  }

  lemma SameDictionary(v: World, w: World, x: World, r: Request, size: nat, outcome: Outcome<Answer>)
    requires v.dictionary == w.dictionary && Reported(w, x, r, size, outcome)
    ensures Reported(v, x, r, size, outcome)
  {
    hide Unhex, AbortCode, UploadValue;
  }
}
