/** From the inputs of a call to its result: row i of the result comes from row i of every input. */
module ClusterInputs {
  import opened QCDefs
  import opened ClusterSpec
  import opened ClusterProofs
  import opened ClusterFifo

  /** There are inputs, and all have the same number of rows. */
  predicate SameLengths(inputs: seq<seq<Row>>) {
    inputs != [] && forall j :: 0 <= j < |inputs| ==> |inputs[j]| == |inputs[0]|
  }

  /** Row i of every input, in the order of the inputs. */
  function RowsAt(inputs: seq<seq<Row>>, i: nat): (item: Item)
    requires forall j :: 0 <= j < |inputs| ==> i < |inputs[j]|
    ensures |item| == |inputs| && forall j :: 0 <= j < |inputs| ==> item[j] == inputs[j][i]
  {
    seq(|inputs|, j requires 0 <= j < |inputs| => inputs[j][i])
  }

  ghost predicate ItemsOf(inputs: seq<seq<Row>>, items: seq<Item>) {
    && SameLengths(inputs) && |items| == |inputs[0]|
    && forall i :: 0 <= i < |items| ==> items[i] == RowsAt(inputs, i)
  }

  /** A call is refused exactly when there are no inputs or their lengths differ; otherwise item i is row i of all. */
  lemma SplitIs(inputs: seq<seq<Row>>)
    ensures Split(inputs).Some? <==> SameLengths(inputs)
    ensures Split(inputs).Some? ==> ItemsOf(inputs, Split(inputs).value)
  {
  }

  /** Each input of a with the same input of b behind it. */
  function Joined(a: seq<seq<Row>>, b: seq<seq<Row>>): seq<seq<Row>>
    requires |a| == |b|
  {
    seq(|a|, j requires 0 <= j < |a| => a[j] + b[j])
  }

  /** Batches joined row by row split into the items of the one and then of the other. */
  lemma SplitJoined(a: seq<seq<Row>>, b: seq<seq<Row>>)
    requires |a| == |b| && SameLengths(a) && SameLengths(b)
    ensures Split(a).Some? && Split(b).Some?
    ensures Split(Joined(a, b)) == Some(Split(a).value + Split(b).value)
  {
    var both := Joined(a, b);
    SplitIs(a);
    SplitIs(b);
    SplitIs(both);
    hide Split;
    assert both[0] == a[0] + b[0];
    var items, more := Split(both).value, Split(a).value + Split(b).value;
    hide Joined;
    forall i | 0 <= i < |items| ensures items[i] == more[i] {
      JoinedRow(a, b, i);
    }
    assert items == more;
  }

  lemma JoinedRow(a: seq<seq<Row>>, b: seq<seq<Row>>, i: nat)
    requires |a| == |b| && SameLengths(a) && SameLengths(b) && i < |a[0]| + |b[0]|
    ensures SameLengths(Joined(a, b)) && |Joined(a, b)[0]| == |a[0]| + |b[0]|
    ensures RowsAt(Joined(a, b), i) == if i < |a[0]| then RowsAt(a, i) else RowsAt(b, i - |a[0]|)
  {
    assert forall j :: 0 <= j < |a| ==> Joined(a, b)[j] == a[j] + b[j];
  }

  /** Replies with one row of output k each are merged into those rows, in order. */
  lemma {:induction false} MergedRows(replies: seq<Reply>, k: string, rows: seq<Row>)
    requires replies != [] && |rows| == |replies|
    requires forall i :: 0 <= i < |replies| ==>
      && replies[i].outputs.Keys == replies[0].outputs.Keys
      && k in replies[i].outputs && replies[i].outputs[k] == [rows[i]]
    ensures MergeAll(replies).Result? && MergeAll(replies).reply.outputs.Keys == replies[0].outputs.Keys
    ensures MergeAll(replies).reply.outputs[k] == rows
  {
    var n := |replies| - 1;
    if n > 0 {
      MergedRows(replies[..n], k, rows[..n]);
      assert rows == rows[..n] + [rows[n]];
    } else {
      assert replies[..0] == [] && MergeAll([]) == Nothing;
      assert rows == [rows[0]];
    }
  }

  /** The whole way, from clean queues: if the inference gives one row of output k for each item, computed from the
      item's rows, then the call gives, in order, the rows computed from row i of every input, for every i below the
      common length. */
  lemma RowByRow(before: seq<Worker>, id: nat, inputs: seq<seq<Row>>, k: string,
                 inference: Request -> Reply, computed: Item -> Row)
    requires |before| > 0 && Clean(before) && SameLengths(inputs) && |inputs[0]| > 0
    requires forall i :: 0 <= i < |inputs[0]| ==>
      && var reply := inference(Request(id, i, RowsAt(inputs, i)));
      && reply.outputs.Keys == inference(Request(id, 0, RowsAt(inputs, 0))).outputs.Keys
      && k in reply.outputs && reply.outputs[k] == [computed(RowsAt(inputs, i))]
    ensures Split(inputs).Some?
    ensures
      && var merged := MergeAll(Answers(before, id, Split(inputs).value, inference));
      && merged.Result? && k in merged.reply.outputs && |merged.reply.outputs[k]| == |inputs[0]|
      && forall i :: 0 <= i < |inputs[0]| ==> merged.reply.outputs[k][i] == computed(RowsAt(inputs, i))
  {
    SplitIs(inputs);
    var items := Split(inputs).value;
    CleanAnswers(before, id, items);
    hide Split, RequestFor, MergeAll;
    var replies := Answers(before, id, items, inference);
    var rows := seq(|items|, i requires 0 <= i < |items| => computed(items[i]));
    forall i | 0 <= i < |items|
      ensures replies[i] == inference(Request(id, i, RowsAt(inputs, i))) && rows[i] == computed(RowsAt(inputs, i))
    {
    }
    MergedRows(replies, k, rows);
  }

  /** The replies a call takes for its items, given what the queues held before. */
  function Answers(before: seq<Worker>, id: nat, items: seq<Item>, inference: Request -> Reply): (replies: seq<Reply>)
    requires |before| > 0
    ensures |replies| == |items|
  {
    seq(|items|, i requires 0 <= i < |items| => inference(RequestFor(before, id, items, i)))
  }
}
