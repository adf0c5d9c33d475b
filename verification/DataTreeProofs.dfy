/** Keys as token lists, when a key can be set, and the lens laws. */
module DataTreeProofs {
  import opened QCDefs
  import opened DataTreeSpec

  // ---------------------------------------------------------------- keys

  lemma {:induction false} FirstDot(token: string, rest: string)
    requires '.' !in token && (rest == "" || rest[0] == '.')
    ensures Dot(token + rest) == |token|
  {
    if token == "" {
      assert token + rest == rest;
    } else {
      FirstDot(token[1..], rest);
      assert (token + rest)[1..] == token[1..] + rest;
    }
  }

  lemma FirstToken(token: string, rest: string)
    requires '.' !in token
    ensures Tokens(token + ("." + rest)) == [token] + Tokens(rest)
    ensures Tokens(token) == if token == "" then [] else [token]
  {
    FirstDot(token, "." + rest);
    FirstDot(token, "");
    assert token + "" == token && token[..|token|] == token;
    var text := token + ("." + rest);
    assert Left(text) == rest && Token(text) == token;
  }

  /** A last token that is empty gets lost. */
  function Kept(path: Path): Path {
    if path == [] then []
    else if |path| == 1 then (if path[0] == "" then [] else path)
    else [path[0]] + Kept(path[1..])
  }

  lemma {:induction false} TokensAreKept(path: Path)
    requires forall t <- path :: '.' !in t
    ensures Tokens(Join(path)) == Kept(path)
  {
    hide Tokens;
    if path == [] {
      NoTokens();
    } else if |path| == 1 {
      FirstToken(path[0], "");
      assert path == [path[0]];
    } else {
      TokensAreKept(path[1..]);
      FirstToken(path[0], Join(path[1..]));
      assert Join(path) == path[0] + ("." + Join(path[1..]));
    }
  }

  lemma {:induction false} KeptIs(path: Path)
    ensures Kept(path) == if path != [] && path[|path| - 1] == "" then path[..|path| - 1] else path
  {
    if |path| > 1 {
      KeptIs(path[1..]);
    }
  }

  /** Splitting what was joined gives the tokens back, exactly when the last one is not empty. */
  lemma TokensOfJoin(path: Path)
    requires forall t <- path :: '.' !in t
    ensures Tokens(Join(path)) == path <==> path == [] || path[|path| - 1] != ""
    ensures path != [] && path[|path| - 1] == "" ==> Tokens(Join(path)) == path[..|path| - 1]
  {
    hide Tokens, Join, Kept;
    TokensAreKept(path);
    KeptIs(path);
  }

  lemma NoTokens()
    ensures Tokens("") == []
  {
  }

  // ---------------------------------------------------------------- when a key can be set

  /** Whatever a proper prefix of the path leads to is an object or null. */
  ghost predicate Settable(j: Json, path: Path) {
    forall k :: 0 <= k < |path| ==> Find(j, path[..k]).Some? ==>
      Find(j, path[..k]).value.Null? || Find(j, path[..k]).value.Object?
  }

  lemma SettableStep(j: Json, path: Path)
    requires path != []
    ensures Settable(j, path) <==> Indexable(j) && Settable(Child(j, path[0]), path[1..])
  {
    var child, rest := Child(j, path[0]), path[1..];
    assert path[..0] == [];
    forall k | 0 < k < |path|
      ensures path[..k][0] == path[0] && path[..k][1..] == rest[..k - 1]
      ensures Indexable(j) && Find(j, path[..k]).None? ==>
        Find(child, rest[..k - 1]).None? || Indexable(Find(child, rest[..k - 1]).value)
    {
    }
    if Settable(j, path) {
      assert Indexable(Find(j, path[..0]).value);
      forall k | 0 <= k < |rest| && Find(child, rest[..k]).Some? ensures Indexable(Find(child, rest[..k]).value) {
        assert path[..k + 1][1..] == rest[..k];
        assert Find(j, path[..k + 1]).Some? ==> Indexable(Find(j, path[..k + 1]).value);
      }
    }
    if Indexable(j) && Settable(child, rest) {
      forall k | 0 <= k < |path| && Find(j, path[..k]).Some? ensures Indexable(Find(j, path[..k]).value) {
        if k > 0 {
          assert Find(child, rest[..k - 1]).Some?;
        }
      }
    }
  }

  /** Setting throws exactly when a proper prefix of the key leads to something that is neither object nor null. */
  lemma {:induction false} SetSucceedsIff(j: Json, path: Path, v: Json)
    ensures Put(j, path, v).Some? <==> Settable(j, path)
    decreases |path|
  {
    if path != [] {
      SettableStep(j, path);
      SetSucceedsIff(Child(j, path[0]), path[1..], v);
    }
  }

  /** A key without tokens sets nothing; any other sets at its path. */
  lemma EmptyKey(j: Json, path: Path, v: Json)
    ensures SetPath(j, [], v) == Some(j)
    ensures path != [] ==> SetPath(j, path, v) == Put(j, path, v)
  {
  }

  // ---------------------------------------------------------------- lens laws

  /** Get after Set, at the key and below it: the value set is found, and nothing of what was there before. */
  lemma {:induction false} GetAfterSet(j: Json, path: Path, v: Json, below: Path)
    requires Put(j, path, v).Some?
    ensures Find(Put(j, path, v).value, path + below) == Find(v, below)
    ensures Find(Put(j, path, v).value, path) == Some(v)
    decreases |path|
  {
    if path == [] {
      assert path + below == below;
    } else {
      assert (path + below)[1..] == path[1..] + below;
      GetAfterSet(Child(j, path[0]), path[1..], v, below);
    }
  }

  /** Neither path leads to or through the other. */
  predicate Apart(p: Path, q: Path) { !(p <= q) && !(q <= p) }

  lemma PrefixStep(p: Path, q: Path)
    requires p != [] && q != []
    ensures p <= q <==> p[0] == q[0] && p[1..] <= q[1..]
  {
    if p[0] == q[0] && p[1..] <= q[1..] {
      assert p == [p[0]] + p[1..] == q[..|p|];
    }
  }

  lemma ApartStep(p: Path, q: Path)
    requires Apart(p, q)
    ensures p != [] && q != []
    ensures p[0] == q[0] ==> Apart(p[1..], q[1..])
  {
    PrefixStep(p, q);
    PrefixStep(q, p);
  }

  /** Paths apart from the key are found as before, or missing as before. */
  lemma {:induction false} SetKeepsOthers(j: Json, path: Path, v: Json, other: Path)
    requires Apart(path, other) && Put(j, path, v).Some?
    ensures Find(Put(j, path, v).value, other) == Find(j, other)
    decreases |path|
  {
    ApartStep(path, other);
    if path[0] == other[0] {
      SetKeepsOthers(Child(j, path[0]), path[1..], v, other[1..]);
    }
  }

  /** The nodes on the way are objects that differ only in the next token. */
  lemma {:induction false} SetOnTheWay(j: Json, path: Path, v: Json, k: nat)
    requires k < |path| && Put(j, path, v).Some?
    ensures
      && var before := Find(j, path[..k]);
      && var after := Find(Put(j, path, v).value, path[..k]);
      && after.Some? && after.value.Object? && path[k] in after.value.fields
      && after.value.fields - {path[k]} == (if before.Some? then Fields(before.value) else map[]) - {path[k]}
    decreases |path|
  {
    if k > 0 {
      assert path[..k][1..] == path[1..][..k - 1];
      SetOnTheWay(Child(j, path[0]), path[1..], v, k - 1);
    }
  }

  /** The second of two settings below one node reads what the first left there. */
  lemma WithTwice(j: Json, t: string, a: Json, u: string, b: Json)
    ensures Indexable(With(j, t, a)) && Child(With(j, t, a), u) == if t == u then a else Child(j, u)
    ensures With(With(j, t, a), u, b) == if t == u then With(j, u, b) else With(With(j, u, b), t, a)
  {
    var f := Fields(j);
    assert t == u ==> f[t := a][u := b] == f[u := b];
    assert t != u ==> f[t := a][u := b] == f[u := b][t := a];
  }

  /** A later Set of the same key wins. */
  lemma {:induction false} SetAgain(j: Json, path: Path, v: Json, w: Json)
    requires Put(j, path, v).Some?
    ensures Put(Put(j, path, v).value, path, w) == Put(j, path, w)
    decreases |path|
  {
    if path != [] {
      var t, child := path[0], Child(j, path[0]);
      SetAgain(child, path[1..], v, w);
      WithTwice(j, t, Put(child, path[1..], v).value, t, v);
      if Put(child, path[1..], w).Some? {
        WithTwice(j, t, Put(child, path[1..], v).value, t, Put(child, path[1..], w).value);
      }
    }
  }

  /** Setting what is there already changes nothing. */
  lemma {:induction false} SetWhatIsThere(j: Json, path: Path)
    requires Find(j, path).Some?
    ensures Put(j, path, Find(j, path).value) == Some(j)
    decreases |path|
  {
    if path != [] {
      var child := Child(j, path[0]);
      assert Fields(j)[path[0] := child] == Fields(j);
      SetWhatIsThere(child, path[1..]);
    }
  }

  function Then(j: Option<Json>, path: Path, v: Json): Option<Json> {
    if j.None? then None else Put(j.value, path, v)
  }

  /** Setting two paths that are apart gives the same tree in either order, or throws in either order. */
  lemma {:induction false} SetsCommute(j: Json, p: Path, v: Json, q: Path, w: Json)
    requires Apart(p, q)
    ensures Then(Put(j, p, v), q, w) == Then(Put(j, q, w), p, v)
    decreases |p|
  {
    ApartStep(p, q);
    if Indexable(j) {
      var a, b := Put(Child(j, p[0]), p[1..], v), Put(Child(j, q[0]), q[1..], w);
      SecondPut(j, p, v, q, w);
      SecondPut(j, q, w, p, v);
      if p[0] == q[0] {
        SetsCommute(Child(j, p[0]), p[1..], v, q[1..], w);
      } else if a.Some? && b.Some? {
        WithTwice(j, p[0], a.value, q[0], b.value);
      }
    }
  }

  lemma SecondPut(j: Json, p: Path, v: Json, q: Path, w: Json)
    requires p != [] && q != [] && Indexable(j)
    ensures
      && var a := Put(Child(j, p[0]), p[1..], v);
      && var b := if p[0] == q[0] then Then(a, q[1..], w) else Put(Child(j, q[0]), q[1..], w);
      && Then(Put(j, p, v), q, w) ==
        if a.None? || b.None? then None
        else if p[0] == q[0] then Some(With(j, p[0], b.value))
        else Some(With(With(j, p[0], a.value), q[0], b.value))
  {
    var a := Put(Child(j, p[0]), p[1..], v);
    var b := if p[0] == q[0] then Then(a, q[1..], w) else Put(Child(j, q[0]), q[1..], w);
    if a.Some? {
      WithTwice(j, p[0], a.value, q[0], if b.Some? then b.value else w);
    }
  }

  // ---------------------------------------------------------------- a tree set into itself

  /** The tree that is read there differs by nulls on the way only: setting the key in it is setting it in the tree. */
  lemma {:induction false} WayIs(j: Json, path: Path, v: Json)
    ensures Put(Way(j, path), path, v) == Put(j, path, v)
    decreases |path|
  {
    if |path| > 1 && Indexable(j) {
      var child := Child(j, path[0]);
      WayIs(child, path[1..], v);
      var reached := Reached(child, path[1..]);
      if reached.Some? && Put(child, path[1..], v).Some? {
        WithTwice(j, path[0], reached.value, path[0], Put(child, path[1..], v).value);
      } else if reached.Some? {
        WithTwice(j, path[0], reached.value, path[0], Null);
      }
    }
  }

  /** So a tree that is set into itself below missing nodes holds a copy with a null, not the tree it was. */
  lemma SetIntoItself(a: string, b: string, empty: Json)
    requires empty == Object(map[])
    ensures Way(empty, [a, b]) == Object(map[a := Null])
    ensures SetPath(empty, [a, b], Array([Way(empty, [a, b])]))
      == Some(Object(map[a := Object(map[b := Array([Object(map[a := Null])])])]))
  {
    assert [a, b][1..] == [b] && [b][1..] == [];
    assert Reached(Null, [b]) == Some(Null);
    assert Put(Null, [b], Array([Way(empty, [a, b])])) == Some(Object(map[b := Array([Way(empty, [a, b])])]));
  }
}
