/** Round trip of messages on the wire. */
module WireProofs {
  import opened QCDefs
  import opened Bytes
  import opened WireFormat

  // ---------------------------------------------------------------- names

  lemma {:induction false} StripRightZeros(s: Bytes, n: nat)
    requires s == [] || s[|s| - 1] != 0
    ensures StripRight(s + Zeros(n)) == s
    decreases n
  {
    var t := s + Zeros(n);
    if n == 0 {
      assert t == s;
    } else {
      assert t[..|t| - 1] == s + Zeros(n - 1);
      StripRightZeros(s, n - 1);
    }
  }

  lemma {:induction false} StripRightShape(s: Bytes)
    ensures StripRight(s) == [] || StripRight(s)[|StripRight(s)| - 1] != 0
    ensures StripRight(s) <= s
  {
    if s != [] && s[|s| - 1] == 0 {
      StripRightShape(s[..|s| - 1]);
    }
  }

  lemma {:induction false} StripLeftShape(s: Bytes)
    ensures StripLeft(s) == [] || StripLeft(s)[0] != 0
    ensures s == [] || s[0] != 0 ==> StripLeft(s) == s
  {
    if s != [] && s[0] == 0 {
      StripLeftShape(s[1..]);
    }
  }

  lemma {:induction false} StripLeftZeros(n: nat)
    ensures StripLeft(Zeros(n)) == []
  {
    if n > 0 {
      assert Zeros(n)[1..] == Zeros(n - 1);
      StripLeftZeros(n - 1);
    }
  }

  predicate CleanName(name: Bytes) { name == [] || (name[0] != 0 && name[|name| - 1] != 0) }

  /** A name of at most 64 bytes comes back exactly when it neither begins nor ends with a zero byte. */
  lemma NameRoundTrip(name: Bytes)
    requires |name| <= 64
    ensures Strip(NameField(name)) == name <==> CleanName(name)
  {
    var field := NameField(name);
    StripLeftShape(field);
    StripRightShape(StripLeft(field));
    if name == [] {
      assert field == Zeros(64);
      StripLeftZeros(64);
    } else if CleanName(name) {
      StripRightZeros(name, 64 - |name|);
    }
  }

  // ---------------------------------------------------------------- one item

  /** The item as the reader gets it. */
  function Received(item: Item): Item {
    if item.Tensor? then item.(name := Strip(NameField(item.name))) else item
  }

  lemma FillIs(s: Bytes, offset: nat, x: seq<nat>, n: nat)
    requires At(s, offset, Words(Fill(x, n))) && |x| <= n && forall v <- x :: Word(v)
    ensures WordsAt(s, offset, |x|) == x
  {
    hide At, Words, Field;
    forall k | 0 <= k < |x| ensures Field(s, offset + 4 * k, 4) == x[k] {
      assert Word(x[k]);
      WordIs(s, offset, Fill(x, n), k);
    }
  }

  lemma WholeAt(s: Bytes)
    ensures At(s, 0, s)
  {
    assert s[0..|s|] == s;
  }

  lemma TensorRoundTrip(item: Item)
    requires item.Tensor? && ItemFits(item)
    ensures ItemAt(TensorBytes(item), item.raw) == Success(Received(item)) && SizeAt(TensorBytes(item)) == |item.raw|
  {
    hide At, Words, Field, Slice, Strip, NameField, Fill, WordsAt;
    var meta := TensorBytes(item);
    var first: seq<UInt32> := [TYPE_TENSOR, Wrap32(|item.raw|), Wrap32(item.elementType)];
    var dims := Fill(item.dims, 8);
    var last: seq<UInt32> := [Wrap32(|item.dims|), Wrap32(item.quantScale), Wrap32(item.quantOffset)];
    var name := NameField(item.name);
    WholeAt(meta);
    AtThree(meta, 0, Words(first), Words(dims), Words(last) + (name + Zeros(8)));
    AtThree(meta, 44, Words(last), name, Zeros(8));
    WordIs(meta, 0, first, 0);
    WordIs(meta, 0, first, 1);
    WordIs(meta, 0, first, 2);
    FillIs(meta, 12, item.dims, 8);
    WordIs(meta, 44, last, 0);
    WordIs(meta, 44, last, 1);
    WordIs(meta, 44, last, 2);
    AtSlice(meta, 56, name);
    Widths();
    SignedUnsigned(item.quantOffset, 4);
  }

  lemma ImageRoundTrip(item: Item)
    requires item.Image? && ItemFits(item)
    ensures ItemAt(ImageBytes(item.meta), item.raw) == Success(item) && SizeAt(ImageBytes(item.meta)) == |item.raw|
  {
    hide At, Words, Field, Fill, WordsAt;
    var m := item.meta;
    var meta := ImageBytes(m);
    var first: seq<UInt32> :=
      [Wrap32(m.dataType), Wrap32(m.size), Wrap32(m.format), Wrap32(m.batchSize), Wrap32(m.width), Wrap32(m.height)];
    var stride, actual := Words(Fill(m.stride, 4)), Words(Fill(m.actualHeight, 4));
    var plane := Words(Fill(m.planeBufSize, 4));
    var last: seq<UInt32> := [Wrap32(m.numPlanes)];
    WholeAt(meta);
    AtThree(meta, 0, Words(first), stride, actual + (plane + (Words(last) + Zeros(52))));
    AtThree(meta, 40, actual, plane, Words(last) + Zeros(52));
    AtParts(meta, 72, Words(last), Zeros(52));
    WordIs(meta, 0, first, 0);
    WordIs(meta, 0, first, 1);
    WordIs(meta, 0, first, 2);
    WordIs(meta, 0, first, 3);
    WordIs(meta, 0, first, 4);
    WordIs(meta, 0, first, 5);
    FillIs(meta, 24, m.stride, 4);
    FillIs(meta, 40, m.actualHeight, 4);
    FillIs(meta, 56, m.planeBufSize, 4);
    WordIs(meta, 72, last, 0);
  }

  lemma ItemRoundTrip(item: Item)
    requires ItemFits(item)
    ensures ItemAt(MetaBytes(item), item.raw) == Success(Received(item)) && SizeAt(MetaBytes(item)) == |item.raw|
  {
    if item.Tensor? {
      TensorRoundTrip(item);
    } else {
      ImageRoundTrip(item);
    }
  }

  // ---------------------------------------------------------------- messages

  function ReceivedAll(items: seq<Item>): (r: seq<Item>)
    ensures |r| == |items|
  {
    if items == [] then [] else [Received(items[0])] + ReceivedAll(items[1..])
  }

  lemma AllFitRest(items: seq<Item>)
    requires AllFit(items) && items != []
    ensures ItemFits(items[0]) && AllFit(items[1..])
  {
    hide ItemFits;
  }

  lemma {:induction false} ItemsRoundTrip(payload: Bytes, metaAt: nat, dataAt: nat, items: seq<Item>)
    requires AllFit(items)
    requires At(payload, metaAt, MetasOf(items)) && At(payload, dataAt, RawOf(items))
    ensures ItemsAt(payload, metaAt, |items|, dataAt) == Success(ReceivedAll(items))
    decreases |items|
  {
    hide At, MetasOf, RawOf, ItemFits, AllFit, Received, ReceivedAll, ItemsAt, Cons;
    ReceivedStep(items);
    if items == [] {
      NoItems(payload, metaAt, dataAt);
    } else {
      AllFitRest(items);
      ItemsStep(payload, metaAt, dataAt, items);
      ItemsRoundTrip(payload, metaAt + META, dataAt + |items[0].raw|, items[1..]);
    }
  }

  lemma ReceivedStep(items: seq<Item>)
    ensures items == [] ==> ReceivedAll(items) == []
    ensures items != [] ==>
      Cons(Success(Received(items[0])), Success(ReceivedAll(items[1..]))) == Success(ReceivedAll(items))
  {
    hide Received;
  }

  lemma NoItems(payload: Bytes, metaAt: nat, dataAt: nat)
    ensures ItemsAt(payload, metaAt, 0, dataAt) == Success([])
  {
  }

  lemma ItemsStep(payload: Bytes, metaAt: nat, dataAt: nat, items: seq<Item>)
    requires items != [] && ItemFits(items[0])
    requires At(payload, metaAt, MetasOf(items)) && At(payload, dataAt, RawOf(items))
    ensures ItemsAt(payload, metaAt, |items|, dataAt) ==
      Cons(Success(Received(items[0])), ItemsAt(payload, metaAt + META, |items| - 1, dataAt + |items[0].raw|))
    ensures At(payload, metaAt + META, MetasOf(items[1..])) && At(payload, dataAt + |items[0].raw|, RawOf(items[1..]))
  {
    hide At, MetasOf, RawOf, ItemFits, Received, Slice, ItemAt, SizeAt, Cons;
    ItemIs(payload, metaAt, dataAt, items);
  }

  /** The first of the items at a place, and where the others are. */
  lemma ItemIs(payload: Bytes, metaAt: nat, offset: nat, items: seq<Item>)
    requires items != [] && ItemFits(items[0])
    requires At(payload, metaAt, MetasOf(items)) && At(payload, offset, RawOf(items))
    ensures metaAt + META <= |payload|
    ensures
      && var meta, size := payload[metaAt..metaAt + META], |items[0].raw|;
      && SizeAt(meta) == size && ItemAt(meta, Slice(payload, offset, offset + size)) == Success(Received(items[0]))
      && At(payload, metaAt + META, MetasOf(items[1..])) && At(payload, offset + size, RawOf(items[1..]))
  {
    hide At, MetaBytes, ItemAt, SizeAt, ItemFits;
    var item, rest := items[0], items[1..];
    AtParts(payload, metaAt, MetaBytes(item), MetasOf(rest));
    AtParts(payload, offset, item.raw, RawOf(rest));
    AtIs(payload, metaAt, MetaBytes(item));
    AtSlice(payload, offset, item.raw);
    ItemRoundTrip(item);
  }

  lemma AtIs(s: Bytes, offset: nat, x: Bytes)
    requires At(s, offset, x)
    ensures offset + |x| <= |s| && s[offset..offset + |x|] == x
  {
  }

  lemma SplitAt(a: Bytes, b: Bytes)
    ensures At(a + b, 0, a) && At(a + b, |a|, b)
  {
  }

  lemma PayloadRoundTrip(items: seq<Item>)
    requires AllFit(items)
    ensures ItemsAt(Payload(items), 0, |items|, META * |items|) == Success(ReceivedAll(items))
  {
    hide At, MetasOf, RawOf, ItemsAt, AllFit, ReceivedAll;
    SplitAt(MetasOf(items), RawOf(items));
    ItemsRoundTrip(Payload(items), 0, META * |items|, items);
  }

  lemma HeaderRoundTrip(m: Message)
    requires Fits(m)
    ensures PayloadSize(HeaderBytes(m)) == |Payload(m.items)| && HasDatas(HeaderBytes(m))
    ensures Field(HeaderBytes(m), 8, 8) == m.id && Field(HeaderBytes(m), 16, 8) == m.timestamp
    ensures Field(HeaderBytes(m), 24, 4) == |m.items|
  {
    hide At, Words, Field, Encode, Payload, Slice;
    var s, size := HeaderBytes(m), |Payload(m.items)|;
    var ws: seq<UInt32> := [Wrap32(|m.items|), COMMAND_DATA];
    WholeAt(s);
    AtThree(s, 0, Encode(Wrap64(size), 8), Encode(Wrap64(m.id), 8),
      Encode(Wrap64(m.timestamp), 8) + (Words(ws) + Zeros(96)));
    AtThree(s, 16, Encode(Wrap64(m.timestamp), 8), Words(ws), Zeros(96));
    Widths();
    FieldIs(s, 0, size, 8);
    FieldIs(s, 8, m.id, 8);
    FieldIs(s, 16, m.timestamp, 8);
    WordIs(s, 24, ws, 0);
    WordIs(s, 24, ws, 1);
  }

  /** What comes out of a message at the other end: identifier, time, descriptions and raw data. */
  lemma MessageRoundTrip(m: Message)
    requires Fits(m)
    ensures Decoded(HeaderBytes(m), Payload(m.items)) == Success(m.(items := ReceivedAll(m.items)))
  {
    HeaderRoundTrip(m);
    PayloadRoundTrip(m.items);
  }

  predicate CleanNames(items: seq<Item>) {
    forall item <- items :: item.Tensor? ==> CleanName(item.name)
  }

  /** The items come back as they were sent exactly when no tensor name begins or ends with a zero byte. */
  lemma {:induction false} ReceivedIsSent(items: seq<Item>)
    requires AllFit(items)
    ensures ReceivedAll(items) == items <==> CleanNames(items)
  {
    if items != [] {
      hide Strip, NameField, CleanName;
      var rest := items[1..];
      ReceivedIsSent(rest);
      AllFitRest(items);
      if items[0].Tensor? {
        NameRoundTrip(items[0].name);
      }
      assert items == [items[0]] + rest;
      assert ReceivedAll(items)[0] == Received(items[0]) && ReceivedAll(items)[1..] == ReceivedAll(rest);
      assert CleanNames(items) <==> CleanNames([items[0]]) && CleanNames(rest);
      assert CleanNames([items[0]]) <==> (items[0].Tensor? ==> CleanName(items[0].name));
    }
  }

  // ---------------------------------------------------------------- the dictionary

  ghost predicate DistinctKeys(items: seq<Item>) {
    forall i, j :: 0 <= i < j < |items| ==> KeyAt(items, i) != KeyAt(items, j)
  }

  lemma {:induction false} DictionaryKeys(items: seq<Item>)
    ensures forall key :: key in Dictionary(items) <==> exists i :: 0 <= i < |items| && KeyAt(items, i) == key
    ensures |Dictionary(items)| <= |items|
  {
    if items != [] {
      var front := items[..|items| - 1];
      DictionaryKeys(front);
      forall i | 0 <= i < |front| ensures KeyAt(items, i) == KeyAt(front, i) {
      }
      assert Dictionary(items).Keys == Dictionary(front).Keys + {KeyAt(items, |items| - 1)};
    }
  }

  /** None is lost exactly when the keys are distinct. */
  lemma {:induction false} NothingReplaced(items: seq<Item>)
    ensures |Dictionary(items)| == |items| <==> DistinctKeys(items)
    decreases |items|
  {
    if items != [] {
      var front, key := items[..|items| - 1], KeyAt(items, |items| - 1);
      NothingReplaced(front);
      DictionaryKeys(front);
      DistinctFront(items);
      assert Dictionary(items).Keys == Dictionary(front).Keys + {key};
      assert |Dictionary(items)| == |Dictionary(items).Keys| && |Dictionary(front)| == |Dictionary(front).Keys|;
    }
  }

  lemma DistinctFront(items: seq<Item>)
    requires items != []
    ensures
      && var front := items[..|items| - 1];
      && (forall i :: 0 <= i < |front| ==> KeyAt(front, i) == KeyAt(items, i))
      && (DistinctKeys(items) <==>
        DistinctKeys(front) && forall i :: 0 <= i < |front| ==> KeyAt(front, i) != KeyAt(items, |items| - 1))
  {
    var front := items[..|items| - 1];
    assert forall i :: 0 <= i < |front| ==> KeyAt(front, i) == KeyAt(items, i);
  }

  /** Under every key the last item with it is found; so with distinct keys every item is found under its own. */
  lemma {:induction false} AllFound(items: seq<Item>, i: nat)
    requires i < |items| && forall j :: i < j < |items| ==> KeyAt(items, j) != KeyAt(items, i)
    ensures KeyAt(items, i) in Dictionary(items) && Dictionary(items)[KeyAt(items, i)] == items[i]
    decreases |items|
  {
    DistinctFront(items);
    if i < |items| - 1 {
      var front := items[..|items| - 1];
      assert KeyAt(items, |items| - 1) != KeyAt(items, i);
      assert forall j :: i < j < |front| ==> KeyAt(front, j) == KeyAt(items, j);
      AllFound(front, i);
    }
  }

  // ---------------------------------------------------------------- payloads that are malformed

  /** A description of type 3 is a tensor, with eight dimensions at most; any other is an image. */
  lemma ItemFails(meta: Bytes, raw: Bytes)
    ensures Field(meta, 0, 4) != 3 ==> ItemAt(meta, raw).Success? && ItemAt(meta, raw).value.Image?
    ensures Field(meta, 0, 4) == 3 && Field(meta, 44, 4) <= 8 ==>
      ItemAt(meta, raw).Success? && ItemAt(meta, raw).value.Tensor?
    ensures Field(meta, 0, 4) == 3 && Field(meta, 44, 4) > 8 ==> ItemAt(meta, raw) == Failure(Malformed)
    ensures ItemAt(meta, raw).Success? ==> ItemAt(meta, raw).value.raw == raw
  {
    hide Field;
  }

  /** A payload fails exactly when a description reaches past its end or is itself malformed. */
  lemma {:induction false} PayloadFails(payload: Bytes, metaAt: nat, n: nat, dataAt: nat)
    ensures ItemsAt(payload, metaAt, n, dataAt).Failure? ==> ItemsAt(payload, metaAt, n, dataAt) == Failure(Malformed)
    ensures ItemsAt(payload, metaAt, n, dataAt).Failure? <==>
      exists k :: 0 <= k < n && BadDescription(payload, metaAt + 128 * k)
    decreases n
  {
    hide ItemAt, SizeAt, Slice;
    if n > 0 && metaAt + 128 <= |payload| {
      var meta := payload[metaAt..metaAt + 128];
      PayloadFails(payload, metaAt + 128, n - 1, dataAt + SizeAt(meta));
      BadItem(payload, metaAt, Slice(payload, dataAt, dataAt + SizeAt(meta)));
      Shifted(payload, metaAt, n);
    } else if n > 0 {
      assert BadDescription(payload, metaAt + 128 * 0);
    }
  }

  /** A description that is cut off, or a tensor of more than eight dimensions. */
  predicate BadDescription(payload: Bytes, at: nat) {
    at + 128 > |payload| ||
    (Field(payload[at..at + 128], 0, 4) == 3 && Field(payload[at..at + 128], 44, 4) > 8)
  }

  lemma BadItem(payload: Bytes, at: nat, raw: Bytes)
    requires at + 128 <= |payload|
    ensures ItemAt(payload[at..at + 128], raw).Failure? <==> BadDescription(payload, at)
    ensures ItemAt(payload[at..at + 128], raw).Failure? ==> ItemAt(payload[at..at + 128], raw) == Failure(Malformed)
  {
    hide Field;
  }

  lemma Shifted(payload: Bytes, at: nat, n: nat)
    requires n > 0
    ensures (exists k :: 0 <= k < n && BadDescription(payload, at + 128 * k)) <==>
      BadDescription(payload, at) || exists k :: 0 <= k < n - 1 && BadDescription(payload, at + 128 + 128 * k)
  {
    hide BadDescription;
    if k :| 0 <= k < n && BadDescription(payload, at + 128 * k) {
      assert k > 0 ==> at + 128 * k == at + 128 + 128 * (k - 1);
    }
    if k :| 0 <= k < n - 1 && BadDescription(payload, at + 128 + 128 * k) {
      assert at + 128 + 128 * k == at + 128 * (k + 1);
    }
    if BadDescription(payload, at) {
      assert BadDescription(payload, at + 128 * 0);
    }
  }

  /** A tensor is kept under its name, an image under its position. */
  lemma KeysAre(items: seq<Item>, i: nat)
    requires i < |items|
    ensures items[i].Tensor? ==> KeyAt(items, i) == ByName(items[i].name)
    ensures items[i].Image? ==> KeyAt(items, i) == ByPosition(i)
  {
  }
}
