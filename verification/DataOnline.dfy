/** DataOnline: messages written to and read from a socket that delivers any number of bytes at a time. */
module DataOnlineModule {
  import opened QCDefs
  import opened Bytes
  import opened WireFormat
  import opened WireProofs

  // ---------------------------------------------------------------- a stream of messages

  datatype Outcome = Outcome(result: Result<Message, WireError>, rest: Bytes)

  /** What Read makes of the bytes that arrive: the header, then exactly as many bytes as it announces. Without enough
      bytes it waits until its timeout. */
  function ReadFrom(stream: Bytes): Outcome {
    if |stream| < META then Outcome(Failure(TimedOut), [])
    else
      var header, behind := stream[..META], stream[META..];
      if !HasDatas(header) then Outcome(Failure(NoDatas), behind)
      else if |behind| < PayloadSize(header) then Outcome(Failure(TimedOut), [])
      else Outcome(Decoded(header, behind[..PayloadSize(header)]), behind[PayloadSize(header)..])
  }

  /** A read waits in vain exactly when fewer bytes arrive than the header takes, or than it announces; it then leaves
      nothing. A header without data is refused before anything more is read. */
  lemma ReadFromIs(stream: Bytes)
    ensures
      && var o := ReadFrom(stream);
      && (|stream| < 128 ==> o == Outcome(Failure(TimedOut), []))
      && (|stream| >= 128 ==>
        && var header, behind := stream[..128], stream[128..];
        && var none := Field(header, 24, 4) == 0 || Field(header, 28, 4) != 0;
        && (none ==> o == Outcome(Failure(NoDatas), behind))
        && (!none && |behind| < Field(header, 0, 8) ==> o == Outcome(Failure(TimedOut), []))
        && (!none && |behind| >= Field(header, 0, 8) ==>
          o.rest == behind[Field(header, 0, 8)..] && o.result == Decoded(header, behind[..Field(header, 0, 8)])))
  {
    hide Field, Decoded;
  }

  /** What has been received of a message. */
  function ReceivedMessage(m: Message): Message { m.(items := ReceivedAll(m.items)) }

  /** One message is read, and the next read starts at the byte behind it. */
  lemma ReadsOneMessage(m: Message, rest: Bytes)
    requires Fits(m)
    ensures ReadFrom(MessageBytes(m) + rest) == Outcome(Success(ReceivedMessage(m)), rest)
  {
    hide Payload, HeaderBytes, Decoded, Fits;
    var stream := MessageBytes(m) + rest;
    assert stream[..META] == HeaderBytes(m);
    assert stream[META..] == Payload(m.items) + rest;
    HeaderRoundTrip(m);
    MessageRoundTrip(m);
  }

  function StreamOf(ms: seq<Message>): Bytes {
    if ms == [] then [] else MessageBytes(ms[0]) + StreamOf(ms[1..])
  }

  function ReceivedMessages(ms: seq<Message>): seq<Message> {
    if ms == [] then [] else [ReceivedMessage(ms[0])] + ReceivedMessages(ms[1..])
  }

  /** n reads, one after the other; None when one of them fails. */
  function ReadMany(stream: Bytes, n: nat): Option<(seq<Message>, Bytes)>
    decreases n
  {
    if n == 0 then Some(([], stream))
    else
      var first := ReadFrom(stream);
      if first.result.Failure? then None
      else
        var others := ReadMany(first.rest, n - 1);
        if others.None? then None else Some(([first.result.value] + others.value.0, others.value.1))
  }

  /** Consecutive messages stay framed. */
  lemma {:induction false} ReadsAllMessages(ms: seq<Message>, rest: Bytes)
    requires forall m <- ms :: Fits(m)
    ensures ReadMany(StreamOf(ms) + rest, |ms|) == Some((ReceivedMessages(ms), rest))
    decreases |ms|
  {
    hide ReadFrom, MessageBytes, Fits;
    if ms == [] {
      assert StreamOf(ms) + rest == rest;
    } else {
      assert StreamOf(ms) + rest == MessageBytes(ms[0]) + (StreamOf(ms[1..]) + rest);
      ReadsOneMessage(ms[0], StreamOf(ms[1..]) + rest);
      ReadsAllMessages(ms[1..], rest);
    }
  }

  /** A message that Read rejects for its header is left half read: the next read starts behind it exactly when it has
      no payload. */
  lemma RejectedMessageFraming(header: Bytes, payload: Bytes, rest: Bytes)
    requires |header| == META && !HasDatas(header) && |payload| == PayloadSize(header)
    ensures ReadFrom(header + payload + rest).result == Failure(NoDatas)
    ensures ReadFrom(header + payload + rest).rest == rest <==> PayloadSize(header) == 0
  {
    var stream := header + payload + rest;
    assert stream[..META] == header && stream[META..] == payload + rest;
    if payload == [] {
      assert payload + rest == rest;
    } else {
      assert |payload + rest| > |rest|;
    }
  }

  // ---------------------------------------------------------------- sizes

  lemma {:induction false} RawAppend(items: seq<Item>, item: Item)
    ensures RawOf(items + [item]) == RawOf(items) + item.raw
    ensures MetasOf(items + [item]) == MetasOf(items) + MetaBytes(item)
  {
    hide MetaBytes;
    if items == [] {
      assert [item][1..] == [];
      assert RawOf([]) == [] && MetasOf([]) == [];
      assert RawOf([item]) == item.raw + [] && MetasOf([item]) == MetaBytes(item) + [];
    } else {
      RawAppend(items[1..], item);
      assert (items + [item])[1..] == items[1..] + [item];
    }
  }

  function Joined(done: seq<Item>, rest: Result<seq<Item>, WireError>): Result<seq<Item>, WireError> {
    if rest.Failure? then rest else Success(done + rest.value)
  }

  lemma JoinedStep(done: seq<Item>, item: Result<Item, WireError>, rest: Result<seq<Item>, WireError>)
    ensures item.Success? ==> Joined(done, Cons(item, rest)) == Joined(done + [item.value], rest)
    ensures item.Failure? ==> Joined(done, Cons(item, rest)) == Failure(item.error)
    ensures Joined(done, Success([])) == Success(done) && (rest.Failure? ==> Joined(done, rest) == rest)
    ensures Joined([], rest) == rest
  {
    if item.Success? && rest.Success? {
      assert done + ([item.value] + rest.value) == (done + [item.value]) + rest.value;
    }
    assert done + [] == done;
    assert rest.Success? ==> [] + rest.value == rest.value;
  }

  class DataOnline {
    var session: nat
    /** The bytes the peer has sent or will send, and those sent to it. */
    var incoming: Bytes
    var outgoing: Bytes

    constructor (incoming: Bytes)
      ensures session == 0 && this.incoming == incoming && outgoing == []
    {
      session, this.incoming, outgoing := 0, incoming, [];
    }

    /** sock.recv: at least one byte while there are any, and at most n. */
    method Recv(n: nat) returns (bytes: Bytes)
      modifies `incoming
      ensures old(incoming) == bytes + incoming && |bytes| <= n
      ensures n > 0 && old(incoming) != [] ==> bytes != []
    {
      if n == 0 || incoming == [] {
        bytes := [];
        assert old(incoming) == bytes + incoming;
      } else {
        var k :| 1 <= k <= n && k <= |incoming|;
        bytes := incoming[..k];
        incoming := incoming[k..];
      }
    }

    /** The loop around recv. It gives up when the peer sends no more, and, unless patient, whenever the clock says
        so. */
    method RecvAll(size: nat, patient: bool) returns (r: Result<Bytes, WireError>)
      modifies `incoming
      ensures r.Success? ==> |r.value| == size && old(incoming) == r.value + incoming
      ensures r.Failure? ==> r.error == TimedOut && (patient ==> incoming == [])
      ensures patient ==> (r.Success? <==> size <= old(|incoming|))
    {
      var payload := Recv(size);
      while |payload| < size
        invariant |payload| <= size && old(incoming) == payload + incoming
        decreases size - |payload|
      {
        if incoming == [] {
          return Failure(TimedOut);
        }
        var more := Recv(size - |payload|);
        payload := payload + more;
        var elapsed: bool := *;
        if !patient && elapsed {
          return Failure(TimedOut);
        }
      }
      return Success(payload);
    }

    /** The items of a payload, put into a dictionary one after the other. */
    method ReadItems(payload: Bytes, n: nat) returns (r: Result<map<Key, Item>, WireError>)
      ensures
        match ItemsAt(payload, 0, n, META * n)
        case Failure(e) => r == Failure(e)
        case Success(items) => r == Success(Dictionary(items))
    {
      hide ItemAt, SizeAt, Cons, Joined, ItemsAt, Slice, Dictionary;
      NothingFound();
      var datas: map<Key, Item> := map[];
      var offset: nat := META * n;
      ghost var whole := ItemsAt(payload, 0, n, META * n);
      ghost var done: seq<Item> := [];
      JoinedStep([], Failure(Malformed), whole);
      var i := 0;
      while i < n
        invariant 0 <= i <= n && |done| == i && datas == Dictionary(done)
        invariant whole == Joined(done, ItemsAt(payload, META * i, n - i, offset))
      {
        ItemsUnfold(payload, META * i, n - i, offset);
        if META * i + META > |payload| {
          JoinedStep(done, Failure(Malformed), Failure(Malformed));
          return Failure(Malformed);
        }
        var meta := payload[META * i..META * i + META];
        var next: nat := offset + SizeAt(meta);
        var item := ItemAt(meta, Slice(payload, offset, next));
        JoinedStep(done, item, ItemsAt(payload, META * i + META, n - i - 1, next));
        if item.Failure? {
          return Failure(item.error);
        }
        DictionaryAppend(done, item.value);
        done := done + [item.value];
        datas := datas[(if item.value.Tensor? then ByName(item.value.name) else ByPosition(i)) := item.value];
        offset := next;
        i := i + 1;
      }
      ItemsUnfold(payload, META * n, 0, offset);
      JoinedStep(done, Failure(Malformed), Success([]));
      return Success(datas);
    }

    /** Read: identifier, time and dictionary of one message, however the bytes are cut; nothing beyond it is taken. */
    method Read(patient: bool) returns (r: Result<(nat, nat, map<Key, Item>), WireError>)
      modifies `incoming
      ensures patient || r != Failure(TimedOut) ==>
        && incoming == ReadFrom(old(incoming)).rest
        && r == match ReadFrom(old(incoming)).result
                case Failure(e) => Failure(e)
                case Success(m) => Success((m.id, m.timestamp, Dictionary(m.items)))
    {
      hide ItemsAt, HasDatas, PayloadSize, Dictionary;
      var header := RecvAll(META, patient);
      if header.Failure? {
        return Failure(TimedOut);
      }
      ghost var stream := old(incoming);
      assert stream[..META] == header.value && stream[META..] == incoming;
      if !HasDatas(header.value) {
        return Failure(NoDatas);
      }
      ghost var behind := incoming;
      var payload := RecvAll(PayloadSize(header.value), patient);
      if payload.Failure? {
        return Failure(TimedOut);
      }
      var size := PayloadSize(header.value);
      assert behind[..size] == payload.value && behind[size..] == incoming;
      var datas := ReadItems(payload.value, Field(header.value, 24, 4));
      if datas.Failure? {
        return Failure(datas.error);
      }
      return Success((Field(header.value, 8, 8), Field(header.value, 16, 8), datas.value));
    }

    /** ReadPayload hands on the bytes of one message as they are, whatever its command; it is sure to when they all
        arrive before its time is over. */
    method ReadPayload(patient: bool) returns (r: Result<Bytes, WireError>)
      modifies `incoming
      ensures r.Success? ==>
        && |r.value| >= META && |r.value| == META + PayloadSize(r.value[..META])
        && old(incoming) == r.value + incoming
      ensures r.Failure? ==> r.error == TimedOut
      ensures patient ==> (r.Success? <==>
        old(|incoming|) >= META && old(|incoming|) >= META + PayloadSize(old(incoming[..META])))
    {
      hide PayloadSize;
      var header := RecvAll(META, patient);
      if header.Failure? {
        return header;
      }
      var payload := RecvAll(PayloadSize(header.value), patient);
      if payload.Failure? {
        return payload;
      }
      assert (header.value + payload.value)[..META] == header.value;
      return Success(header.value + payload.value);
    }

    /** Write; without an identifier the number of the session is used. Names over 64 bytes or more than eight
        dimensions do not fit the structure. */
    method Write(items: seq<Item>, id: Option<nat>, timestamp: nat)
      requires forall item <- items :: item.Tensor? ==> |item.name| <= 64 && |item.dims| <= 8
      modifies `session, `outgoing
      ensures session == old(session) + 1
      ensures
        var m := Message(if id.Some? then id.value else old(session), timestamp, items);
        outgoing == old(outgoing) + MessageBytes(m)
    {
      hide HeaderBytes, Payload;
      var identifier := if id.Some? then id.value else session;
      ghost var m := Message(identifier, timestamp, items);
      var payloadSize := TotalSize(items);
      var header := Header(payloadSize, identifier, timestamp, items);
      var payload := Gather(items);
      outgoing := outgoing + (header + payload);
      session := session + 1;
    }
  }

  /** meta.payloadSize, added up in 64 bits. */
  method TotalSize(items: seq<Item>) returns (size: UInt64)
    ensures size == Wrap64(|Payload(items)|)
  {
    hide MetaBytes, MetasOf, RawOf;
    EmptyItems();
    size := Wrap64(META * |items|);
    for i := 0 to |items|
      invariant size == Wrap64(META * |items| + |RawOf(items[..i])|)
    {
      assert items[..i + 1] == items[..i] + [items[i]];
      RawAppend(items[..i], items[i]);
      size := Wrap64(size + |items[i].raw|);
    }
    assert items[..|items|] == items;
  }

  method Header(payloadSize: UInt64, id: nat, timestamp: nat, items: seq<Item>) returns (header: Bytes)
    requires payloadSize == Wrap64(|Payload(items)|)
    ensures header == HeaderBytes(Message(id, timestamp, items))
  {
    hide Payload, Encode, Words, Zeros;
    header := Encode(payloadSize, 8) + (Encode(Wrap64(id), 8) + (Encode(Wrap64(timestamp), 8)
      + (Words([Wrap32(|items|), COMMAND_DATA]) + Zeros(96))));
  }

  /** All descriptions, then all data. */
  method Gather(items: seq<Item>) returns (payload: Bytes)
    ensures payload == Payload(items)
  {
    hide MetaBytes, MetasOf, RawOf;
    EmptyItems();
    payload := [];
    for i := 0 to |items|
      invariant payload == MetasOf(items[..i])
    {
      assert items[..i + 1] == items[..i] + [items[i]];
      RawAppend(items[..i], items[i]);
      payload := payload + MetaBytes(items[i]);
    }
    assert items[..|items|] == items;
    for i := 0 to |items|
      invariant payload == MetasOf(items) + RawOf(items[..i])
    {
      assert items[..i + 1] == items[..i] + [items[i]];
      RawAppend(items[..i], items[i]);
      payload := payload + items[i].raw;
    }
  }

  lemma NothingFound()
    ensures Dictionary([]) == map[]
  {
  }

  lemma DictionaryAppend(done: seq<Item>, item: Item)
    ensures Dictionary(done + [item]) ==
      Dictionary(done)[(if item.Tensor? then ByName(item.name) else ByPosition(|done|)) := item]
  {
    assert (done + [item])[..|done|] == done;
  }

  lemma EmptyItems()
    ensures MetasOf([]) == [] && RawOf([]) == []
  {
  }

  lemma ItemsUnfold(payload: Bytes, metaAt: nat, n: nat, dataAt: nat)
    ensures n == 0 ==> ItemsAt(payload, metaAt, n, dataAt) == Success([])
    ensures n > 0 && metaAt + META > |payload| ==> ItemsAt(payload, metaAt, n, dataAt) == Failure(Malformed)
    ensures n > 0 && metaAt + META <= |payload| ==>
      var meta := payload[metaAt..metaAt + META];
      var next := dataAt + SizeAt(meta);
      ItemsAt(payload, metaAt, n, dataAt) ==
        Cons(ItemAt(meta, Slice(payload, dataAt, next)), ItemsAt(payload, metaAt + META, n - 1, next))
  {
    hide SizeAt, ItemAt, Cons, Slice;
  }
}
