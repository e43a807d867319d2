/** The SDO gateway: a mailbox message for a model-owned object is checked, handed to the
    model once, polled until the promise is settled, and answered once; the local object
    dictionary follows the model only after the model accepted. */
module SdoGateway {
  import opened Words
  import opened Wrappers
  import opened OctetValues
  import opened Codec
  import opened HexCodec
  import opened AsyncClient

  // Offsets in a mailbox message: mailbox header, CoE header, service data, payload.
  const COE: nat := 6
  const SERVICE: nat := 8
  const PAYLOAD: nat := 12
  const REPLY_LENGTH: nat := 10

  const SDO_REQUEST: bv8 := 0x20
  const SDO_RESPONSE: bv8 := 0x30
  const DOWNLOAD: bv8 := 1
  const UPLOAD: bv8 := 2

  const BAD_LENGTH: nat := 0x06070010
  const NO_SUBINDEX: nat := 0x06090011
  const UNSUPPORTED: nat := 0x06010000
  const WRITE_ONLY: nat := 0x06010001
  const READ_ONLY: nat := 0x06010002
  const NO_OBJECT: nat := 0x06020000
  const BAD_COMMAND: nat := 0x05040001
  const GENERAL: nat := 0x08000000

  type Key = (nat, nat)

  datatype Entry = Entry(bits: nat, readable: bool, writable: bool, data: Octets)

  type Dictionary = map<Key, Entry>

  datatype Request = Read(key: Key) | Write(key: Key, text: string)

  datatype ErrorField = NoError | ErrorCode(code: nat) | ErrorWithoutCode

  datatype Answer = Answer(error: ErrorField, data: Option<string>)

  // ---- Checking a message ----

  function KeyOf(data: Octets): Key
    requires |data| >= PAYLOAD
  {
    (FromLittleEndian(data[SERVICE + 1..SERVICE + 3]), FromLittleEndian(data[SERVICE + 3..SERVICE + 4]))
  }

  /** The octets an expedited transfer leaves unused. */
  function Unused(command: bv8): nat {
    var n := (command >> 2) & 3;
    if n == 0 then 0 else if n == 1 then 1 else if n == 2 then 2 else 3
  }

  datatype Checked = Refused(code: nat) | Accepted(key: Key, size: nat, value: Option<Octets>)

  function SizeOf(e: Entry): nat {
    (e.bits + 7) / 8
  }

  /** The value of a download, expedited or with an explicit length. */
  function DownloadValue(data: Octets, key: Key, size: nat): Checked
    requires |data| >= PAYLOAD + 4 && FromLittleEndian(data[0..2]) + COE <= |data|
  {
    var command, end := data[SERVICE], COE + FromLittleEndian(data[0..2]);
    var expedited, sized := command & 2 != 0, command & 1 != 0;
    if !expedited && !sized then Refused(UNSUPPORTED)
    else
      var offset := if expedited then PAYLOAD else PAYLOAD + 4;
      var length: int := if !expedited then FromLittleEndian(data[PAYLOAD..PAYLOAD + 4])
                         else if sized then 4 - Unused(command) else size;
      if length != size || offset + size > end then Refused(BAD_LENGTH)
      else Accepted(key, size, Some(data[offset..offset + size]))
  }

  function Check(data: Octets, owned: set<Key>, dictionary: Dictionary): Checked
    requires |data| >= PAYLOAD
  {
    var length, key, command := FromLittleEndian(data[0..2]), KeyOf(data), data[SERVICE];
    if length < REPLY_LENGTH || COE + length > |data| then Refused(BAD_LENGTH)
    else if key !in owned then Refused(NO_SUBINDEX)
    else if command & 0x10 != 0 then Refused(UNSUPPORTED)
    else if key !in dictionary then Refused(NO_OBJECT)
    else
      var entry := dictionary[key];
      var size := SizeOf(entry);
      if size > 4 || size == 0 then Refused(UNSUPPORTED)
      else if command >> 5 == DOWNLOAD then
        if !entry.writable then Refused(READ_ONLY) else DownloadValue(data, key, size)
      else if command >> 5 == UPLOAD then
        if !entry.readable then Refused(WRITE_ONLY) else Accepted(key, size, None)
      else Refused(BAD_COMMAND)
  }

  function RequestOf(c: Checked): Request
    requires c.Accepted?
  {
    if c.value.Some? then Write(c.key, Hex(c.value.value)) else Read(c.key)
  }

  /** The object a message addresses: index and subindex behind the command octet. */
  function Addressed(data: Octets): Key
    requires |data| >= PAYLOAD
  {
    (OctetValue(data[9]) + 256 * OctetValue(data[10]), OctetValue(data[11]))
  }

  /** Where the value of a download starts: an explicit length precedes it unless the
      transfer is expedited. */
  function ValueOffset(data: Octets): nat
    requires |data| >= PAYLOAD
  {
    if data[8] & 2 != 0 then 12 else 16
  }

  /** The request says what the message says: a download carries the octets of its value, an
      upload none. */
  predicate CarriesMessage(r: Request, data: Octets, size: nat)
    requires |data| >= PAYLOAD
  {
    && r.key == Addressed(data)
    && (if data[8] >> 5 == 1 then
          && r.Write? && ValueOffset(data) + size <= |data|
          && Unhex(r.text, size) == Some(data[ValueOffset(data)..ValueOffset(data) + size])
        else data[8] >> 5 == 2 && r.Read?)
  }

  lemma KeyIsAddressed(data: Octets)
    requires |data| >= PAYLOAD
    ensures KeyOf(data) == Addressed(data)
  {
    hide OctetValue;
    var index, sub := data[9..11], data[11..12];
    assert index[1..] == [data[10]] && [data[10]][1..] == [] && sub[1..] == [];
    assert FromLittleEndian([data[10]]) == OctetValue(data[10]);
  }

  /** The request of an accepted message says what the message says. */
  lemma AcceptedCarries(data: Octets, owned: set<Key>, dictionary: Dictionary)
    requires |data| >= PAYLOAD && Check(data, owned, dictionary).Accepted?
    ensures var c := Check(data, owned, dictionary); CarriesMessage(RequestOf(c), data, c.size)
  {
    hide OctetValue, Hex, Unhex, FromLittleEndian, Unused;
    var c := Check(data, owned, dictionary);
    KeyIsAddressed(data);
    if c.value.Some? {
      UnhexHex(c.value.value);
    }
  }

  // ---- Replies ----

  function Zeros(n: nat): (z: Octets)
    ensures |z| == n && forall i :: 0 <= i < n ==> z[i] == 0
  {
    seq(n, _ => 0)
  }

  function Padded(data: Octets): (d: Octets)
    ensures |d| >= PAYLOAD + 4 && data <= d
  {
    if |data| >= PAYLOAD + 4 then data else data + Zeros(PAYLOAD + 4 - |data|)
  }

  /** The headers of a reply: length, service, command; everything between is kept. */
  function WithHeaders(data: Octets, service: bv8, command: bv8): (d: Octets)
    requires |data| >= PAYLOAD
    ensures |d| == |data|
  {
    LittleEndian(REPLY_LENGTH, 2) + data[2..COE + 1] + [(data[COE + 1] & 0x0f) | service, command] + data[SERVICE + 1..]
  }

  lemma OctetPut(d: Octets, octets: Octets, i: nat)
    requires |octets| == 4 && i < 4 && |d| >= PAYLOAD + 4
    ensures (d[..PAYLOAD] + octets[..i] + d[PAYLOAD + i..])[PAYLOAD + i := octets[i]]
            == d[..PAYLOAD] + octets[..i + 1] + d[PAYLOAD + i + 1..]
  {
  }

  /** The three header fields written one after another. */
  lemma HeadersInPlace(d: Octets, service: bv8, command: bv8)
    requires |d| >= PAYLOAD
    ensures var a := LittleEndian(REPLY_LENGTH, 2) + d[2..];
            var b := a[..COE + 1] + [(d[COE + 1] & 0x0f) | service] + a[SERVICE..];
            b[..SERVICE] + [command] + b[SERVICE + 1..] == WithHeaders(d, service, command)
  {
    hide LittleEndian;
    var length, octet := LittleEndian(REPLY_LENGTH, 2), (d[COE + 1] & 0x0f) | service;
    var a := length + d[2..];
    assert a[..COE + 1] == length + d[2..COE + 1] && a[SERVICE..] == d[SERVICE..];
    var b := a[..COE + 1] + [octet] + a[SERVICE..];
    assert b[..SERVICE] == length + d[2..COE + 1] + [octet] && b[SERVICE + 1..] == d[SERVICE + 1..];
    assert [octet] + [command] == [octet, command];
  }

  function AbortReply(data: Octets, code: nat): Octets
    requires |data| >= PAYLOAD
  {
    var d := WithHeaders(Padded(data), SDO_REQUEST, 0x80);
    d[..PAYLOAD] + LittleEndian(code % 0x1_0000_0000, 4) + d[PAYLOAD + 4..]
  }

  function UnusedOctets(size: nat): bv8 {
    if size == 1 then 3 else if size == 2 then 2 else if size == 3 then 1 else 0
  }

  function SuccessCommand(write: bool, size: nat): bv8 {
    if write then 0x60 else 0x43 | (UnusedOctets(size) << 2)
  }

  function SuccessReply(data: Octets, write: bool, value: Octets): Octets
    requires |data| >= PAYLOAD && |value| <= 4
  {
    var d := WithHeaders(Padded(data), SDO_RESPONSE, SuccessCommand(write, |value|));
    var shown := if write then [] else value;
    d[..PAYLOAD] + shown + Zeros(|d| - PAYLOAD - |shown|)
  }

  /** How a master reads a reply. */
  function UploadValue(reply: Octets): Option<Octets>
    requires |reply| >= PAYLOAD + 4
  {
    var command := reply[SERVICE];
    if command >> 5 == 2 && command & 3 == 3 && Unused(command) < 4
    then Some(reply[PAYLOAD..PAYLOAD + 4 - Unused(command)]) else None
  }

  function AbortCode(reply: Octets): Option<nat>
    requires |reply| >= PAYLOAD + 4
  {
    if reply[SERVICE] == 0x80 then Some(FromLittleEndian(reply[PAYLOAD..PAYLOAD + 4])) else None
  }

  lemma UnusedBits(size: nat)
    requires 1 <= size <= 4
    ensures Unused(SuccessCommand(false, size)) == 4 - size
    ensures SuccessCommand(false, size) >> 5 == 2 && SuccessCommand(false, size) & 3 == 3
  {
  }

  /** A master decodes from an upload reply exactly the value, from an abort its code. */
  lemma RepliesDecode(data: Octets, value: Octets, code: nat)
    requires |data| >= PAYLOAD && 1 <= |value| <= 4
    ensures |SuccessReply(data, false, value)| >= PAYLOAD + 4 && |AbortReply(data, code)| >= PAYLOAD + 4
    ensures UploadValue(SuccessReply(data, false, value)) == Some(value)
    ensures AbortCode(AbortReply(data, code)) == Some(code % 0x1_0000_0000)
    ensures UploadValue(AbortReply(data, code)).None?
    ensures AbortCode(SuccessReply(data, false, value)).None?
  {
    hide Unused, SuccessCommand, LittleEndian, FromLittleEndian;
    UnusedBits(|value|);
    CommandOctet(data);
    var d := WithHeaders(Padded(data), SDO_RESPONSE, SuccessCommand(false, |value|));
    var r := SuccessReply(data, false, value);
    assert r[SERVICE] == d[SERVICE] == SuccessCommand(false, |value|);
    assert r[PAYLOAD..PAYLOAD + |value|] == value;
    var a := AbortReply(data, code);
    assert a[SERVICE] == 0x80;
    assert a[PAYLOAD..PAYLOAD + 4] == LittleEndian(code % 0x1_0000_0000, 4);
    SpanOfFour();
    FromLittleEndianOf(code % 0x1_0000_0000, 4);
  }

  lemma CommandOctet(data: Octets)
    requires |data| >= PAYLOAD
    ensures forall service, command :: WithHeaders(Padded(data), service, command)[SERVICE] == command
  {
  }

  // ---- One message between polls ----

  datatype Message = Message(data: Octets, pending: Option<Id>, replies: seq<Octets>)

  datatype World = World(
    owned: set<Key>,
    dictionary: Dictionary,
    client: Client<Request, Answer>,
    message: Message)

  datatype Event =
    | Poll
    | ClientStep(step: Step<Request, Answer>)
    | LocalWrite(key: Key, data: Octets)

  predicate Finished(m: Message) {
    m.replies != []
  }

  function Answered(m: Message, reply: Octets): Message {
    m.(replies := m.replies + [reply])
  }

  /** The answer of the model as the value to commit, or the abort code to send. */
  datatype Verdict = Commit(value: Octets) | Deny(code: nat)

  function Judge(c: Checked, outcome: Outcome<Answer>): Verdict
    requires c.Accepted?
  {
    match outcome
    case Exception => Deny(GENERAL)
    case Value(answer) =>
      match answer.error
      case ErrorCode(code) => Deny(code)
      case ErrorWithoutCode => Deny(GENERAL)
      case NoError =>
        if c.value.Some? then Commit(c.value.value)
        else if answer.data.None? then Deny(GENERAL)
        else
          match Unhex(answer.data.value, c.size)
          case None => Deny(GENERAL)
          case Some(value) => Commit(value)
  }

  predicate Wellformed(w: World) {
    |w.message.data| >= PAYLOAD
  }

  lemma JudgedSize(w: World, outcome: Outcome<Answer>)
    requires Wellformed(w)
    ensures var c := Check(w.message.data, w.owned, w.dictionary);
            c.Accepted? ==>
              && c.key in w.owned && c.key in w.dictionary && 1 <= c.size <= 4
              && c.size == SizeOf(w.dictionary[c.key])
              && (c.value.Some? ==> |c.value.value| == c.size)
              && (Judge(c, outcome).Commit? ==> |Judge(c, outcome).value| == c.size)
  {
  }

  function Conclude(w: World, c: Checked, outcome: Outcome<Answer>): World
    requires Wellformed(w) && c == Check(w.message.data, w.owned, w.dictionary) && c.Accepted?
  {
    JudgedSize(w, outcome);
    match Judge(c, outcome)
    case Deny(code) => w.(message := Answered(w.message, AbortReply(w.message.data, code)))
    case Commit(value) =>
      w.(dictionary := w.dictionary[c.key := w.dictionary[c.key].(data := value)],
         message := Answered(w.message, SuccessReply(w.message.data, c.value.Some?, value)))
  }

  /** Submission happens in the first poll that gets that far. */
  function Submitted(w: World, c: Checked): World
    requires c.Accepted?
  {
    if w.message.pending.Some? then w
    else w.(client := Next(w.client, Submit(RequestOf(c))),
            message := w.message.(pending := Some(|w.client.messages|)))
  }

  function PollOnce(w: World): World
    requires Wellformed(w)
  {
    if Finished(w.message) || w.client.worker == Joined then w
    else
      var c := Check(w.message.data, w.owned, w.dictionary);
      match c
      case Refused(code) => w.(message := Answered(w.message, AbortReply(w.message.data, code)))
      case Accepted(_, _, _) =>
        var w1 := Submitted(w, c);
        match Find(w1.client.settled, w1.message.pending.value)
        case None => w1
        case Some(outcome) => Conclude(w1, c, outcome)
  }

  function After(w: World, e: Event): World
    requires Wellformed(w)
  {
    match e
    case Poll => PollOnce(w)
    case ClientStep(step) => w.(client := Next(w.client, step))
    case LocalWrite(key, data) =>
      if key in w.dictionary then w.(dictionary := w.dictionary[key := w.dictionary[key].(data := data)]) else w
  }

  /** What stays of a dictionary: its objects, their sizes and their access rights. */
  predicate SameShape(d: Dictionary, e: Dictionary) {
    d.Keys == e.Keys && forall k :: k in d ==> e[k] == d[k].(data := e[k].data)
  }

  lemma ShapeDecidesCheck(data: Octets, owned: set<Key>, d: Dictionary, e: Dictionary)
    requires |data| >= PAYLOAD && SameShape(d, e)
    ensures Check(data, owned, d) == Check(data, owned, e)
  {
    hide DownloadValue, KeyOf, FromLittleEndian;
  }

  lemma AfterFrame(w: World, e: Event)
    requires Wellformed(w)
    ensures var v := After(w, e);
            && Wellformed(v) && v.owned == w.owned && v.message.data == w.message.data
            && SameShape(w.dictionary, v.dictionary)
            && w.client.messages <= v.client.messages && w.client.settled <= v.client.settled
  {
    hide Check, AbortReply, SuccessReply, Judge, Find, Next;
    if e.Poll? {
      var c := Check(w.message.data, w.owned, w.dictionary);
      if c.Accepted? {
        NextGrows(w.client, Submit(RequestOf(c)));
      }
      OnlySuccessCommits(w);
    } else if e.ClientStep? {
      NextGrows(w.client, e.step);
    }
  }

  /** The story of one message so far: a refused one submits nothing and is answered with
      its abort; an accepted one waits for a job that carries its own request, and is
      answered at most once, with what that job came to. */
  predicate Story(w: World, data: Octets, c: Checked)
    requires |data| >= PAYLOAD
  {
    && w.message.data == data
    && |w.message.replies| <= 1
    && (c.Refused? ==>
          w.message.pending.None? && (Finished(w.message) ==> w.message.replies[0] == AbortReply(data, c.code)))
    && (c.Accepted? ==>
          && (w.message.pending.Some? ==>
                w.message.pending.value < |w.client.messages|
                && w.client.messages[w.message.pending.value] == RequestOf(c))
          && (Finished(w.message) ==>
                w.message.pending.Some? && AnswersOwn(w, data, c)))
  }

  predicate AnswersOwn(w: World, data: Octets, c: Checked)
    requires |data| >= PAYLOAD && c.Accepted? && w.message.pending.Some? && Finished(w.message)
  {
    exists i :: 0 <= i < |w.client.settled| && w.client.settled[i].job == w.message.pending.value
                && w.message.replies[0] == ReplyFor(data, c, w.client.settled[i].outcome)
  }

  /** The reply to a checked message whose request had this outcome. */
  function ReplyFor(data: Octets, c: Checked, outcome: Outcome<Answer>): Octets
    requires |data| >= PAYLOAD && c.Accepted?
  {
    match Judge(c, outcome)
    case Deny(code) => AbortReply(data, code)
    case Commit(value) =>
      if |value| <= 4 then SuccessReply(data, c.value.Some?, value) else AbortReply(data, GENERAL)
  }

  lemma PollKeepsStory(w: World, data: Octets)
    requires Wellformed(w) && data == w.message.data && Story(w, data, Check(data, w.owned, w.dictionary))
    ensures Story(PollOnce(w), data, Check(data, w.owned, w.dictionary))
  {
    hide Check, AbortReply, SuccessReply, Judge, Find, RequestOf, Next;
    var c := Check(data, w.owned, w.dictionary);
    if c.Accepted? && !Finished(w.message) && w.client.worker != Joined {
      NextGrows(w.client, Submit(RequestOf(c)));
      var w1 := Submitted(w, c);
      var found := Find(w1.client.settled, w1.message.pending.value);
      if found.Some? {
        JudgedSize(w1, found.value);
        var i :| 0 <= i < |w1.client.settled| && w1.client.settled[i] == Settlement(w1.message.pending.value, found.value);
        assert PollOnce(w).client == w1.client;
        assert AnswersOwn(PollOnce(w), data, c);
      }
    }
  }

  lemma StoryKept(w: World, e: Event, data: Octets, c: Checked)
    requires Wellformed(w) && |data| >= PAYLOAD && !e.Poll? && Story(w, data, c)
    ensures Story(After(w, e), data, c)
  {
    hide Check, AbortReply, SuccessReply, Judge, Find, RequestOf, Next, ReplyFor;
    AfterFrame(w, e);
    if c.Accepted? && Finished(w.message) {
      var i :| 0 <= i < |w.client.settled| && w.client.settled[i].job == w.message.pending.value
               && w.message.replies[0] == ReplyFor(data, c, w.client.settled[i].outcome);
      var v := After(w, e);
      assert v.client.settled[i] == w.client.settled[i];
    }
  }

  function RunFrom(w: World, events: seq<Event>): (v: World)
    requires Wellformed(w)
    ensures Wellformed(v) && v.owned == w.owned && v.message.data == w.message.data && SameShape(w.dictionary, v.dictionary)
    decreases |events|
  {
    if events == [] then w
    else
      var before := RunFrom(w, events[..|events| - 1]);
      AfterFrame(before, events[|events| - 1]);
      After(before, events[|events| - 1])
  }

  /** How many polls of a run submitted something to the model. */
  function Submissions(w: World, events: seq<Event>): nat
    requires Wellformed(w)
    decreases |events|
  {
    if events == [] then 0
    else
      var n := |events| - 1;
      var v := RunFrom(w, events[..n]);
      Submissions(w, events[..n])
      + (if events[n].Poll? && PollOnce(v).client.messages != v.client.messages then 1 else 0)
  }

  /** A poll submits exactly when it gives the message its job; a message that has its job
      keeps it. */
  lemma PollSubmits(w: World)
    requires Wellformed(w)
    ensures var v := PollOnce(w);
            && (v.client.messages != w.client.messages <==> w.message.pending.None? && v.message.pending.Some?)
            && (w.message.pending.Some? ==> v.message.pending == w.message.pending && v.client == w.client)
  {
    hide Check, AbortReply, SuccessReply, Judge, Find, Next;
    var c := Check(w.message.data, w.owned, w.dictionary);
    if c.Accepted? {
      NextGrows(w.client, Submit(RequestOf(c)));
    }
  }

  /** Once submitted, the message waits for the same job for ever. */
  lemma {:induction false} PendingIsFinal(w: World, events: seq<Event>)
    requires Wellformed(w) && w.message.pending.Some?
    ensures RunFrom(w, events).message.pending == w.message.pending
    ensures Submissions(w, events) == 0
    decreases |events|
  {
    hide PollOnce;
    if events != [] {
      var n := |events| - 1;
      PendingIsFinal(w, events[..n]);
      PollSubmits(RunFrom(w, events[..n]));
    }
  }

  /** However often the message is polled, and whatever the worker and other messages do in
      between: its request is the one it encodes, exactly one poll submits it, or none as
      long as the message has no job, and it is answered at most once, with what that
      request came to. */
  lemma {:induction false} OneRequestOneReply(w: World, events: seq<Event>)
    requires Wellformed(w) && w.message.pending.None? && w.message.replies == []
    ensures var v := RunFrom(w, events);
            && Story(v, w.message.data, Check(w.message.data, w.owned, w.dictionary))
            && Submissions(w, events) == (if v.message.pending.Some? then 1 else 0)
    ensures var v := RunFrom(w, events);
            v.message.pending.Some? ==>
              && v.message.pending.value < |v.client.messages| && Addressed(w.message.data) in w.dictionary
              && CarriesMessage(v.client.messages[v.message.pending.value], w.message.data,
                                SizeOf(w.dictionary[Addressed(w.message.data)]))
    decreases |events|
  {
    hide Check, PollOnce, Story, SameShape, Addressed, CarriesMessage;
    var data := w.message.data;
    var c := Check(data, w.owned, w.dictionary);
    if events == [] {
      FreshStory(w, c);
    } else {
      var n := |events| - 1;
      var v := RunFrom(w, events[..n]);
      OneRequestOneReply(w, events[..n]);
      ShapeDecidesCheck(data, w.owned, w.dictionary, v.dictionary);
      PollSubmits(v);
      if events[n].Poll? {
        PollKeepsStory(v, data);
      } else {
        StoryKept(v, events[n], data, c);
      }
    }
    StoryCarries(RunFrom(w, events), data, w.dictionary);
  }

  /** In its story a message waits for a job that says what the message says. */
  lemma StoryCarries(w: World, data: Octets, dictionary: Dictionary)
    requires |data| >= PAYLOAD && Story(w, data, Check(data, w.owned, dictionary))
    ensures w.message.pending.Some? ==>
              && w.message.pending.value < |w.client.messages| && Addressed(data) in dictionary
              && CarriesMessage(w.client.messages[w.message.pending.value], data, SizeOf(dictionary[Addressed(data)]))
  {
    hide Addressed, CarriesMessage, AnswersOwn, RequestOf, DownloadValue, AbortReply, SizeOf;
    var c := Check(data, w.owned, dictionary);
    if w.message.pending.Some? {
      AcceptedCarries(data, w.owned, dictionary);
      AcceptedFits(data, w.owned, dictionary);
    }
  }

  /** An accepted message names an object of the dictionary, with its size and, for a
      download, a value of that size. */
  lemma AcceptedFits(data: Octets, owned: set<Key>, dictionary: Dictionary)
    requires |data| >= PAYLOAD
    ensures var c := Check(data, owned, dictionary);
            c.Accepted? ==>
              && c.key == Addressed(data) && c.key in dictionary && c.key in owned
              && c.size == SizeOf(dictionary[c.key]) && 1 <= c.size <= 4
              && (c.value.Some? ==> |c.value.value| == c.size)
  {
    hide OctetValue, FromLittleEndian, Unused, Addressed;
    KeyIsAddressed(data);
  }

  /** A poll finishes the message exactly when there is nothing to wait for: the message is
      refused, or its job is settled. */
  lemma PollFinishes(w: World)
    requires Wellformed(w) && !Finished(w.message) && w.client.worker != Joined
    ensures var c, v := Check(w.message.data, w.owned, w.dictionary), PollOnce(w);
            && (c.Accepted? ==> v.message.pending.Some?)
            && (Finished(v.message) <==>
                  c.Refused? || IsSettled(v.client.settled, v.message.pending.value))
  {
    hide Check, AbortReply, SuccessReply, Judge, Next, Find;
    var c := Check(w.message.data, w.owned, w.dictionary);
    if c.Accepted? {
      var w1 := Submitted(w, c);
      FindsSettled(w1.client.settled, w1.message.pending.value);
    }
  }

  lemma FindsSettled<R>(settled: seq<Settlement<R>>, job: Id)
    ensures Find(settled, job).Some? <==> IsSettled(settled, job)
  {
  }

  /** A poll after any run: the message has been answered, once, exactly when it is refused
      or its job is settled. */
  lemma AnsweredExactlyWhenSettled(w: World, events: seq<Event>)
    requires Wellformed(w) && w.message.pending.None? && w.message.replies == []
    requires RunFrom(w, events).client.worker != Joined
    ensures var c, v := Check(w.message.data, w.owned, w.dictionary), PollOnce(RunFrom(w, events));
            && (c.Accepted? ==> v.message.pending.Some?)
            && (|v.message.replies| == 1 <==>
                  c.Refused? || IsSettled(v.client.settled, v.message.pending.value))
  {
    hide Check, PollOnce, SameShape, IsSettled;
    var v := RunFrom(w, events);
    var c := Check(w.message.data, w.owned, w.dictionary);
    OneRequestOneReply(w, events);
    ShapeDecidesCheck(w.message.data, w.owned, w.dictionary, v.dictionary);
    PollKeepsStory(v, w.message.data);
    PollSubmits(v);
    if Finished(v.message) {
      FinishedStays(v);
      if c.Accepted? {
        OwnIsSettled(v, w.message.data, c);
      }
    } else {
      PollFinishes(v);
    }
  }

  lemma FinishedStays(w: World)
    requires Wellformed(w) && Finished(w.message)
    ensures PollOnce(w) == w
  {
  }

  lemma OwnIsSettled(w: World, data: Octets, c: Checked)
    requires |data| >= PAYLOAD && Story(w, data, c) && c.Accepted? && Finished(w.message)
    ensures w.message.pending.Some? && IsSettled(w.client.settled, w.message.pending.value)
  {
    hide ReplyFor, RequestOf;
  }

  // ---- Together with the client ----

  lemma AfterKeepsClientInv(w: World, e: Event)
    requires Wellformed(w) && Inv(w.client)
    ensures Inv(After(w, e).client)
  {
    hide Inv, Check, Judge, Find, Next, AbortReply, SuccessReply;
    match e
    case Poll =>
      var c := Check(w.message.data, w.owned, w.dictionary);
      if c.Accepted? {
        NextKeepsInv(w.client, Submit(RequestOf(c)));
      }
    case ClientStep(step) => NextKeepsInv(w.client, step);
    case LocalWrite(_, _) =>
  }

  lemma {:induction false} RunKeepsClientInv(w: World, events: seq<Event>)
    requires Wellformed(w) && Inv(w.client)
    ensures Inv(RunFrom(w, events).client)
    decreases |events|
  {
    hide Inv, After;
    if events != [] {
      var n := |events| - 1;
      RunKeepsClientInv(w, events[..n]);
      AfterKeepsClientInv(RunFrom(w, events[..n]), events[n]);
    }
  }

  /** No message is left hanging by a failure of the model host: after any run that ends with
      the failure latched, the next poll has answered the message, once. */
  lemma LatchedFailureAnswers(w: World, events: seq<Event>)
    requires Wellformed(w) && w.message.pending.None? && w.message.replies == [] && Inv(w.client)
    requires var v := RunFrom(w, events); v.client.failure != "" && v.client.worker != Joined
    ensures |PollOnce(RunFrom(w, events)).message.replies| == 1
  {
    hide Check, PollOnce, Inv, IsSettled, AllSettled, SameShape;
    var v := RunFrom(w, events);
    var c, x := Check(w.message.data, w.owned, w.dictionary), PollOnce(v);
    RunKeepsClientInv(w, events);
    AnsweredExactlyWhenSettled(w, events);
    if c.Accepted? {
      PollIsAfter(v);
      AfterKeepsClientInv(v, Poll);
      PollKeepsFailure(v);
      LatchedShape(x.client);
      OneRequestOneReply(w, events + [Poll]);
      RunAppends(w, events, Poll);
      JobIsSubmitted(x, w.message.data, c);
    }
  }

  lemma PollKeepsFailure(w: World)
    requires Wellformed(w)
    ensures PollOnce(w).client.failure == w.client.failure
  {
    hide Check, Judge, Find, AbortReply, SuccessReply;
  }

  lemma RunAppends(w: World, events: seq<Event>, e: Event)
    requires Wellformed(w)
    ensures RunFrom(w, events + [e]) == After(RunFrom(w, events), e)
  {
    hide After;
    assert (events + [e])[..|events|] == events;
  }

  lemma JobIsSubmitted(w: World, data: Octets, c: Checked)
    requires |data| >= PAYLOAD && Story(w, data, c) && c.Accepted? && w.message.pending.Some?
    ensures AllSettled(w.client) ==> IsSettled(w.client.settled, w.message.pending.value)
  {
    hide IsSettled;
  }

  lemma FreshStory(w: World, c: Checked)
    requires Wellformed(w) && w.message.pending.None? && w.message.replies == []
    ensures Story(w, w.message.data, c)
  {
  }

  lemma PollIsAfter(w: World)
    requires Wellformed(w)
    ensures After(w, Poll) == PollOnce(w)
  {
  }

  /** The object of the message takes the value, and a success reply goes out. */
  predicate Commits(w: World, v: World, value: Octets)
    requires Wellformed(w)
  {
    var c := Check(w.message.data, w.owned, w.dictionary);
    && c.Accepted? && 1 <= |value| == c.size <= 4 && c.key in w.dictionary
    && v.dictionary == w.dictionary[c.key := w.dictionary[c.key].(data := value)]
    && v.message.replies == w.message.replies + [SuccessReply(w.message.data, c.value.Some?, value)]
    && (c.value.Some? ==> c.value.value == value)
  }

  /** A poll touches the local dictionary only together with a success reply, and then
      exactly the object of the message. */
  lemma OnlySuccessCommits(w: World)
    requires Wellformed(w)
    ensures PollOnce(w).dictionary == w.dictionary || exists value :: Commits(w, PollOnce(w), value)
  {
    hide Check, AbortReply, SuccessReply, Find, Next, Unhex;
    var c, v := Check(w.message.data, w.owned, w.dictionary), PollOnce(w);
    if v.dictionary != w.dictionary {
      var w1 := Submitted(w, c);
      var outcome := Find(w1.client.settled, w1.message.pending.value).value;
      JudgedSize(w1, outcome);
      assert Commits(w, v, Judge(c, outcome).value);
    }
  }

  /** An abort leaves the local dictionary unchanged. */
  lemma AbortCommitsNothing(w: World, reply: Octets)
    requires Wellformed(w) && PollOnce(w).message.replies == w.message.replies + [reply]
    requires |reply| >= PAYLOAD + 4 && AbortCode(reply).Some?
    ensures PollOnce(w).dictionary == w.dictionary
  {
    hide PollOnce, Check, SuccessReply;
    OnlySuccessCommits(w);
    if exists value :: Commits(w, PollOnce(w), value) {
      var value :| Commits(w, PollOnce(w), value);
      var c := Check(w.message.data, w.owned, w.dictionary);
      assert (w.message.replies + [reply])[|w.message.replies|] == SuccessReply(w.message.data, c.value.Some?, value);
      SuccessIsNoAbort(w.message.data, c.value.Some?, value);
    }
  }

  lemma SuccessIsNoAbort(data: Octets, write: bool, value: Octets)
    requires |data| >= PAYLOAD && |value| <= 4
    ensures |SuccessReply(data, write, value)| >= PAYLOAD + 4 && AbortCode(SuccessReply(data, write, value)).None?
  {
    hide SuccessCommand, LittleEndian;
    CommandOctet(data);
    assert SuccessReply(data, write, value)[SERVICE] == SuccessCommand(write, |value|);
    CommandIsNoAbort(write, |value|);
  }

  lemma CommandIsNoAbort(write: bool, size: nat)
    ensures SuccessCommand(write, size) != 0x80
  {
  }

  /** After an accepted download the local object holds what the model reads back; after an
      upload it holds the model's value, and so does the reply. */
  lemma CommitMirrorsModel(w: World, v: World, value: Octets, kind: IntType, modelValue: int)
    requires Wellformed(w) && Commits(w, v, value) && kind.size == |value|
    ensures var c := Check(w.message.data, w.owned, w.dictionary);
            && CarriesMessage(RequestOf(c), w.message.data, |value|)
            && (RequestOf(c).Write? ==>
                  && Unhex(RequestOf(c).text, |value|) == Some(v.dictionary[c.key].data)
                  && Encode(kind, Decode(kind, c.value.value).value) == Some(v.dictionary[c.key].data))
            && (c.value.None? && Encode(kind, modelValue) == Some(value) ==>
                  var reply := SuccessReply(w.message.data, false, value);
                  && Decode(kind, v.dictionary[c.key].data) == Some(modelValue)
                  && |reply| >= PAYLOAD + 4 && UploadValue(reply) == Some(v.dictionary[c.key].data))
  {
    hide Check, SuccessReply, Encode, Decode, InRange, UploadValue, AbortCode, AbortReply, Hex, Unhex, CarriesMessage;
    AcceptedCarries(w.message.data, w.owned, w.dictionary);
    UnhexHex(value);
    EncodeDecoded(kind, value);
    DecodeEncoded(kind, modelValue, []);
    assert value[..kind.size] == value && value + [] == value;
    RepliesDecode(w.message.data, value, 0);
  }

  // ---- The gateway as an object ----

  class LocalDictionary {
    var entries: Dictionary

    constructor (entries: Dictionary)
      ensures this.entries == entries
    {
      this.entries := entries;
    }
  }

  class GatewayMessage {
    const owned: set<Key>
    const dictionary: LocalDictionary
    const client: AsyncModelClient<Request, Answer>
    var data: Octets
    var pending: Option<Id>
    var replies: seq<Octets>
    ghost const raw: Octets

    constructor (owned: set<Key>, dictionary: LocalDictionary, client: AsyncModelClient<Request, Answer>, raw: Octets)
      requires |raw| >= PAYLOAD
      ensures View() == World(owned, dictionary.entries, client.View(), Message(raw, None, []))
      ensures this.dictionary == dictionary && this.client == client && data == raw
    {
      this.owned, this.dictionary, this.client := owned, dictionary, client;
      data, pending, replies := raw, None, [];
      this.raw := raw;
    }

    /** The buffer is rewritten by the reply; the message is judged by what came in. */
    ghost function View(): World
      reads this, dictionary, client
    {
      World(owned, dictionary.entries, client.View(), Message(raw, pending, replies))
    }

    method PutHeaders(service: bv8, command: bv8)
      requires |data| >= PAYLOAD
      modifies this`data
      ensures data == WithHeaders(Padded(old(data)), service, command)
    {
      hide LittleEndian;
      if |data| < PAYLOAD + 4 {
        data := data + Zeros(PAYLOAD + 4 - |data|);
      }
      var octet := (data[COE + 1] & 0x0f) | service;
      data := LittleEndian(REPLY_LENGTH, 2) + data[2..];
      data := data[..COE + 1] + [octet] + data[SERVICE..];
      data := data[..SERVICE] + [command] + data[SERVICE + 1..];
      HeadersInPlace(Padded(old(data)), service, command);
    }

    method SendAbort(code: nat)
      requires |data| >= PAYLOAD
      modifies this`data, this`replies
      ensures replies == old(replies) + [AbortReply(old(data), code)]
    {
      hide LittleEndian, WithHeaders;
      PutHeaders(SDO_REQUEST, 0x80);
      var octets := LittleEndian(code % 0x1_0000_0000, 4);
      ghost var d := data;
      for i := 0 to 4
        invariant replies == old(replies)
        invariant data == d[..PAYLOAD] + octets[..i] + d[PAYLOAD + i..]
      {
        OctetPut(d, octets, i);
        data := data[PAYLOAD + i := octets[i]];
      }
      assert octets[..4] == octets;
      assert data == AbortReply(old(data), code);
      replies := replies + [data];
    }

    method SendSuccess(write: bool, value: Octets)
      requires |data| >= PAYLOAD && |value| <= 4
      modifies this`data, this`replies
      ensures replies == old(replies) + [SuccessReply(old(data), write, value)]
    {
      hide LittleEndian, WithHeaders, SuccessCommand;
      PutHeaders(SDO_RESPONSE, SuccessCommand(write, |value|));
      ghost var d := data;
      data := data[..PAYLOAD] + Zeros(|data| - PAYLOAD);
      if !write {
        data := data[..PAYLOAD] + value + data[PAYLOAD + |value|..];
      }
      assert data == d[..PAYLOAD] + (if write then [] else value) + Zeros(|d| - PAYLOAD - (if write then 0 else |value|));
      replies := replies + [data];
    }

    /** One poll: true when the message is finished. */
    method Process() returns (finalize: bool)
      requires Wellformed(View()) && replies == [] && data == raw && client.worker != Joined
      modifies this, client, dictionary
      ensures Wellformed(old(View())) && View() == PollOnce(old(View()))
      ensures finalize == (replies != [])
      ensures !finalize ==> data == raw
      ensures old(pending).None? && pending.Some? ==>
                && pending.value == |old(client.messages)| && |client.messages| == pending.value + 1
                && Addressed(raw) in old(dictionary.entries)
                && CarriesMessage(client.messages[pending.value], raw, SizeOf(old(dictionary.entries)[Addressed(raw)]))
    {
      hide Check, AbortReply, SuccessReply, Judge, Find, Next, RequestOf, Padded, CarriesMessage, Addressed, SizeOf;
      ghost var before := View();
      var c := Check(data, owned, dictionary.entries);
      if c.Refused? {
        SendAbort(c.code);
        return true;
      }
      JudgedSize(before, Exception);
      AcceptedCarries(raw, owned, dictionary.entries);
      AcceptedFits(raw, owned, dictionary.entries);
      if pending.None? {
        NextGrows(before.client, Submit(RequestOf(c)));
        var job := client.SubmitJob(RequestOf(c));
        pending := Some(job);
      }
      assert View() == Submitted(before, c);
      var outcome := Find(client.settled, pending.value);
      if outcome.None? {
        return false;
      }
      ghost var submitted := View();
      JudgedSize(submitted, outcome.value);
      var verdict := Judge(c, outcome.value);
      if verdict.Deny? {
        SendAbort(verdict.code);
      } else {
        dictionary.entries := dictionary.entries[c.key := dictionary.entries[c.key].(data := verdict.value)];
        SendSuccess(c.value.Some?, verdict.value);
      }
      assert View() == Conclude(submitted, c, outcome.value);
      return true;
    }
  }
}
