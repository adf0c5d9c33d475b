/** DataTree: a JSON value that is read and changed in place along dotted keys. */
module DataTreeModule {
  import opened QCDefs
  import opened DataTreeSpec
  import opened DataTreeProofs

  /** The nodes above the one the walk has reached, each with the token taken there. */
  type Spine = seq<(Json, string)>

  function Rebuild(spine: Spine, j: Json): Json {
    if spine == [] then j
    else Rebuild(spine[..|spine| - 1], With(spine[|spine| - 1].0, spine[|spine| - 1].1, j))
  }

  function Lift(spine: Spine, j: Option<Json>): Option<Json> {
    if j.None? then None else Some(Rebuild(spine, j.value))
  }

  /** One step of the walk, through a child that is there, leaves the tree and the outcome of the rest as they are. */
  lemma Descend(spine: Spine, current: Json, token: string, rest: Path, v: Json)
    requires current.Object? && token in current.fields
    ensures Rebuild(spine + [(current, token)], Child(current, token)) == Rebuild(spine, current)
    ensures
      Lift(spine + [(current, token)], Put(Child(current, token), rest, v))
      == Lift(spine, Put(current, [token] + rest, v))
  {
    assert (spine + [(current, token)])[..|spine|] == spine;
    assert current.fields[token := Child(current, token)] == current.fields;
    assert ([token] + rest)[1..] == rest;
  }

  /** Putting a null where a child is missing does not change the outcome. */
  lemma AddNull(current: Json, token: string, rest: Path, v: Json)
    requires Indexable(current) && token !in Fields(current)
    ensures Put(With(current, token, Null), [token] + rest, v) == Put(current, [token] + rest, v)
  {
    assert ([token] + rest)[1..] == rest;
    var child := Put(Null, rest, v);
    if child.Some? {
      WithTwice(current, token, Null, token, child.value);
    }
  }

  lemma ReachedUnfold(current: Json, token: string, rest: Path)
    ensures rest == [] ==> Reached(current, [token] + rest) == Some(current)
    ensures rest != [] && !Indexable(current) ==> Reached(current, [token] + rest).None?
  {
  }

  lemma ReachedNull(current: Json, token: string, rest: Path)
    requires Indexable(current) && token !in Fields(current) && rest != []
    ensures Reached(With(current, token, Null), [token] + rest) == Reached(current, [token] + rest)
  {
    assert ([token] + rest)[1..] == rest;
    var child := Reached(Null, rest);
    if child.Some? {
      WithTwice(current, token, Null, token, child.value);
    }
  }

  lemma DescendReached(spine: Spine, current: Json, token: string, rest: Path)
    requires current.Object? && token in current.fields && rest != []
    ensures Lift(spine + [(current, token)], Reached(Child(current, token), rest))
      == Lift(spine, Reached(current, [token] + rest))
  {
    assert (spine + [(current, token)])[..|spine|] == spine;
    assert ([token] + rest)[1..] == rest;
  }

  class DataTree {
    var json: Json

    constructor (json: Json)
      ensures this.json == json
    {
      this.json := json;
    }

    /** The walk of Exists and of both forms of Get. */
    method Walk(key: string) returns (r: Option<Json>)
      ensures r == Find(json, Tokens(key))
    {
      var ss, current := key, json;
      while ss != ""
        invariant Find(json, Tokens(key)) == Find(current, Tokens(ss))
        decreases |ss|
      {
        var token := Token(ss);
        ss := Left(ss);
        if current.Object? && token in current.fields {
          current := current.fields[token];
        } else {
          return None;
        }
      }
      return Some(current);
    }

    method Exists(key: string) returns (r: bool)
      ensures r <==> Find(json, Tokens(key)).Some?
    {
      var node := Walk(key);
      return node.Some?;
    }

    /** The tree may be read into itself. */
    method Get(key: string, dt: DataTree) returns (status: Status)
      modifies dt
      ensures old(Find(json, Tokens(key))).Some? ==> status == Ok && Some(dt.json) == old(Find(json, Tokens(key)))
      ensures old(Find(json, Tokens(key))).None? ==> status == OutOfBound && dt.json == old(dt.json)
    {
      var node := Walk(key);
      if node.None? {
        return OutOfBound;
      }
      dt.json := node.value;
      return Ok;
    }

    /** The elements of an array are appended to those the caller has already. */
    method GetList(key: string, dts: seq<Json>) returns (status: Status, r: seq<Json>)
      ensures
        match Find(json, Tokens(key))
        case None => status == OutOfBound && r == dts
        case Some(Array(elements)) => status == Ok && r == dts + elements
        case Some(_) => status == BadArguments && r == dts
    {
      var node := Walk(key);
      r := dts;
      if node.None? {
        return OutOfBound, r;
      }
      if !node.value.Array? {
        return BadArguments, r;
      }
      var elements := node.value.elements;
      for i := 0 to |elements|
        invariant r == dts + elements[..i]
      {
        r := r + [elements[i]];
      }
      return Ok, r;
    }

    /** What both forms of Set do, writing through the pointer step by step; the trees that are passed are read at the
        last token. When it throws, nothing has been changed. */
    method Store(key: string, kv: seq<DataTree>, list: bool) returns (threw: bool)
      requires list || kv != []
      modifies this
      ensures
        var values := old(ValuesWith(kv, this, Way(json, Tokens(key))));
        var value := if list then Array(values) else values[0];
        && (threw <==> SetPath(old(json), Tokens(key), value).None?)
        && json == if threw then old(json) else SetPath(old(json), Tokens(key), value).value
    {
      hide Reached;
      var ss, current := key, json;
      var spine: Spine := [];
      ghost var way := Way(json, Tokens(key));
      ghost var values := ValuesWith(kv, this, way);
      ghost var value := if list then Array(values) else values[0];
      ghost var done := ss == "";
      while ss != ""
        invariant json == Rebuild(spine, current)
        invariant done <==> ss == ""
        invariant done ==> SetPath(old(json), Tokens(key), value) == Some(json)
        invariant !done ==> SetPath(old(json), Tokens(key), value) == Lift(spine, Put(current, Tokens(ss), value))
        invariant !done ==> key != "" && Reached(old(json), Tokens(key)) == Lift(spine, Reached(current, Tokens(ss)))
        invariant !done ==> json == old(json) || current == Null
        decreases |ss|
      {
        var token := Token(ss);
        ghost var rest := Tokens(Left(ss));
        assert Tokens(ss) == [token] + rest && (Tokens(ss))[1..] == rest;
        ReachedUnfold(current, token, rest);
        ss := Left(ss);
        if !Indexable(current) {
          return true;
        }
        if ss == "" {
          assert json == way;
          var jss := Read(kv, values);
          current := With(current, token, if list then Array(jss) else jss[0]);
          json := Rebuild(spine, current);
          done := true;
        } else {
          if token !in Fields(current) {
            AddNull(current, token, rest, value);
            ReachedNull(current, token, rest);
            current := With(current, token, Null);
            json := Rebuild(spine, current);
          }
          Descend(spine, current, token, rest, value);
          DescendReached(spine, current, token, rest);
          spine := spine + [(current, token)];
          current := Child(current, token);
        }
      }
      return false;
    }

    /** The trees as they are now. */
    method Read(kv: seq<DataTree>, ghost values: seq<Json>) returns (jss: seq<Json>)
      requires |values| == |kv| && forall i :: 0 <= i < |kv| ==> values[i] == kv[i].json
      ensures jss == values
    {
      jss := [];
      for i := 0 to |kv|
        invariant jss == values[..i]
      {
        jss := jss + [kv[i].json];
      }
    }

    /** Set; a tree may be set into itself, and then holds what it was with the nodes made on the way. */
    method Set(key: string, dt: DataTree) returns (threw: bool)
      modifies this
      ensures
        var value := if dt == this then Way(old(json), Tokens(key)) else old(dt.json);
        && (threw <==> SetPath(old(json), Tokens(key), value).None?)
        && json == if threw then old(json) else SetPath(old(json), Tokens(key), value).value
    {
      hide SetPath, Tokens, Way;
      threw := Store(key, [dt], false);
    }

    /** Set of a vector: an array of the trees' values. */
    method SetList(key: string, kv: seq<DataTree>) returns (threw: bool)
      modifies this
      ensures
        var value := Array(old(ValuesWith(kv, this, Way(json, Tokens(key)))));
        && (threw <==> SetPath(old(json), Tokens(key), value).None?)
        && json == if threw then old(json) else SetPath(old(json), Tokens(key), value).value
    {
      threw := Store(key, kv, true);
    }
  }

  /** The values of some trees when self holds this value. */
  ghost function ValuesWith(kv: seq<DataTree>, self: DataTree, held: Json): (r: seq<Json>)
    reads kv
    ensures |r| == |kv| && forall i :: 0 <= i < |kv| ==> r[i] == if kv[i] == self then held else kv[i].json
  {
    if kv == [] then []
    else [if kv[0] == self then held else kv[0].json] + ValuesWith(kv[1..], self, held)
  }
}
