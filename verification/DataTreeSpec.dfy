/** Dotted paths into a JSON value. */
module DataTreeSpec {
  import opened QCDefs

  datatype Json =
    | Null | Bool(b: bool) | Number(n: real) | Text(s: string)
    | Array(elements: seq<Json>) | Object(fields: map<string, Json>)

  // ---------------------------------------------------------------- keys

  type Path = seq<string>

  /** The first dot, or the end of the text. */
  function Dot(text: string): (e: nat)
    ensures e <= |text| && '.' !in text[..e]
    ensures e < |text| ==> text[e] == '.'
  {
    if text == "" || text[0] == '.' then 0 else 1 + Dot(text[1..])
  }

  /** std::getline on a stream with this text left: the token, and what is left behind the dot. */
  function Token(text: string): string { text[..Dot(text)] }

  function Left(text: string): string { if Dot(text) < |text| then text[Dot(text) + 1..] else "" }

  /** The tokens of a key; it delivers none when all characters are read, so none after a final dot. */
  function Tokens(text: string): Path
    decreases |text|
  {
    if text == "" then [] else [Token(text)] + Tokens(Left(text))
  }

  function Join(path: Path): string {
    if path == [] then "" else if |path| == 1 then path[0] else path[0] + "." + Join(path[1..])
  }

  // ---------------------------------------------------------------- reading and setting

  function Find(j: Json, path: Path): Option<Json> {
    if path == [] then Some(j)
    else if j.Object? && path[0] in j.fields then Find(j.fields[path[0]], path[1..])
    else None
  }

  /** Null turns into an object when it is indexed; indexing anything else that is no object throws. */
  predicate Indexable(j: Json) { j.Null? || j.Object? }

  function Fields(j: Json): map<string, Json> { if j.Object? then j.fields else map[] }

  /** What is at a key, or the null that is put there. */
  function Child(j: Json, token: string): Json { if token in Fields(j) then Fields(j)[token] else Null }

  function With(j: Json, token: string, v: Json): Json { Object(Fields(j)[token := v]) }

  /** The tree after putting v at a path; None when the source throws. */
  function Put(j: Json, path: Path, v: Json): Option<Json>
    decreases |path|
  {
    if path == [] then Some(v)
    else if !Indexable(j) then None
    else
      var child := Put(Child(j, path[0]), path[1..], v);
      if child.None? then None else Some(With(j, path[0], child.value))
  }

  /** A key without tokens sets nothing. */
  function SetPath(j: Json, path: Path, v: Json): Option<Json> {
    if path == [] then Some(j) else Put(j, path, v)
  }

  /** The tree when Set takes the last token: the nodes on the way are made, the last of them perhaps still a null. */
  function Reached(j: Json, path: Path): Option<Json>
    requires path != []
    decreases |path|
  {
    if |path| == 1 then Some(j)
    else if !Indexable(j) then None
    else
      var child := Reached(Child(j, path[0]), path[1..]);
      if child.None? then None else Some(With(j, path[0], child.value))
  }

  function Way(j: Json, path: Path): Json {
    if path == [] || Reached(j, path).None? then j else Reached(j, path).value
  }
}
