/**
 * Parsed JSON documents (what `JSON.stringify` writes and `JSON.parse` reads back)
 * and the JavaScript property semantics the source applies to them: member reads,
 * optional-chaining reads (`a?.b?.[c]`) and the walk-then-assign of a dotted path
 * (`current = current[k]` for every key but the last, then `current[last] = value`).
 */
module JsonDoc {
  import opened Common
  import Text

  /** Strings, objects and arrays: the values the brand settings are made of. */
  datatype Json = JStr(s: string) | JObject(members: map<string, Json>) | JArray(elems: seq<Json>)

  /** `j[key]`: a member of an object, an element of an array at a canonical index, or undefined (None). */
  function Member(j: Json, key: string): Option<Json>
  {
    match j
    case JStr(_) => None
    case JObject(m) => if key in m then Some(m[key]) else None
    case JArray(xs) =>
      match Text.ParseIndex(key)
      case Some(i) => if i < |xs| then Some(xs[i]) else None
      case None => None
  }

  /** `j?.[k0]?.[k1]…`: optional chaining; a missing step yields undefined (None), never an error. */
  function Read(j: Option<Json>, path: seq<string>): (r: Option<Json>)
    ensures j.None? ==> r.None?
    ensures path != [] ==> r == (var t := Read(j, path[..|path| - 1]); if t.None? then None else Member(t.value, path[|path| - 1]))
    decreases |path|
  {
    if path == [] || j.None? then j
    else
      assert |path| > 1 ==> path[1..][..|path| - 2] == path[..|path| - 1][1..];
      Read(Member(j.value, path[0]), path[1..])
  }

  /** Why an assignment through a dotted path throws (a TypeError in JavaScript). */
  datatype WriteError =
    | CannotRead(key: string)             // reading a property of undefined
    | CannotSet(key: string)              // setting a property of undefined or of a primitive
    | ArrayWriteNotModelled(key: string)  // an array property other than an existing element

  /** Whether `target[key] = …` can store a value that a later `target[key]` returns. */
  predicate Settable(target: Json, key: string)
  {
    match target
    case JStr(_) => false
    case JObject(_) => true
    case JArray(xs) =>
      match Text.ParseIndex(key)
      case Some(i) => i < |xs|
      case None => false
  }

  /** `target[key] = value` with a string value. */
  function SetMember(target: Json, key: string, value: string): (r: Result<Json, WriteError>)
    ensures r.Success? <==> Settable(target, key)
    ensures r.Success? ==> Member(r.value, key) == Some(JStr(value))
  {
    match target
    case JStr(_) => Failure(CannotSet(key))
    case JObject(m) => Success(JObject(m[key := JStr(value)]))
    case JArray(xs) =>
      match Text.ParseIndex(key)
      case Some(i) => if i < |xs| then Success(JArray(xs[i := JStr(value)])) else Failure(ArrayWriteNotModelled(key))
      case None => Failure(ArrayWriteNotModelled(key))
  }

  /** `parent` with the member or element that `key` names replaced by `child`. */
  function Replace(parent: Json, key: string, child: Json): Json
  {
    match parent
    case JStr(_) => parent
    case JObject(m) => JObject(m[key := child])
    case JArray(xs) =>
      match Text.ParseIndex(key)
      case Some(i) => if i < |xs| then JArray(xs[i := child]) else parent
      case None => parent
  }

  /**
   * The dotted-path assignment: starting from `cur` (None is undefined), read every key
   * but the last, then assign the last. The result is the new version of `cur`.
   */
  function Assign(cur: Option<Json>, keys: seq<string>, value: string): (r: Result<Json, WriteError>)
    requires |keys| >= 1
    ensures r.Failure? ==> r.error.key in keys
    ensures r.Success? ==> cur.Some? && !cur.value.JStr? && (cur.value.JObject? <==> r.value.JObject?)
    ensures r.Success? && cur.value.JObject? ==> r.value.members.Keys == cur.value.members.Keys + {keys[0]}
    ensures r.Success? && cur.value.JArray? ==> r.value.JArray? && |r.value.elems| == |cur.value.elems|
    decreases |keys|
  {
    if cur.None? then Failure(if |keys| == 1 then CannotSet(keys[0]) else CannotRead(keys[0]))
    else if |keys| == 1 then SetMember(cur.value, keys[0], value)
    else
      match Assign(Member(cur.value, keys[0]), keys[1..], value)
      case Failure(e) => Failure(e)
      case Success(child) => Success(Replace(cur.value, keys[0], child))
  }

  lemma ReplaceMember(parent: Json, key: string, child: Json)
    requires Member(parent, key).Some?
    ensures Member(Replace(parent, key, child), key) == Some(child)
  {
  }

  /** Two distinct keys never name the same array element. */
  lemma ReplaceOtherMember(parent: Json, key: string, other: string, child: Json)
    requires Member(parent, key).Some? && other != key
    ensures Member(Replace(parent, key, child), other) == Member(parent, other)
  {
    if parent.JArray? {
      match Text.ParseIndex(other)
      case Some(j) =>
        var i := Text.ParseIndex(key).value;
        Text.ParseIndexCanonical(key);
        Text.ParseIndexCanonical(other);
        assert i != j;
      case None =>
    }
  }

  /** After a successful assignment, reading the same path yields the assigned string. */
  lemma {:induction false} AssignReadBack(j: Json, keys: seq<string>, value: string)
    requires |keys| >= 1
    requires Assign(Some(j), keys, value).Success?
    ensures Read(Some(Assign(Some(j), keys, value).value), keys) == Some(JStr(value))
  {
    var r := Assign(Some(j), keys, value).value;
    if |keys| == 1 {
      assert Read(Some(r), keys) == Read(Member(r, keys[0]), keys[1..]);
    } else {
      var c := Member(j, keys[0]);
      assert c.Some?;
      AssignReadBack(c.value, keys[1..], value);
      var child := Assign(c, keys[1..], value).value;
      ReplaceMember(j, keys[0], child);
    }
  }

  /**
   * An assignment leaves every path that is neither a prefix nor an extension of the
   * written path reading exactly what it read before.
   */
  lemma {:induction false} AssignKeepsOtherPaths(j: Json, keys: seq<string>, value: string, q: seq<string>)
    requires |keys| >= 1
    requires Assign(Some(j), keys, value).Success?
    requires !(q <= keys) && !(keys <= q)
    ensures Read(Some(Assign(Some(j), keys, value).value), q) == Read(Some(j), q)
  {
    var r := Assign(Some(j), keys, value).value;
    assert q != [];
    if q[0] != keys[0] {
      if |keys| == 1 {
        match j
        case JObject(m) =>
        case JArray(xs) =>
          ReplaceOtherMember(j, keys[0], q[0], JStr(value));
          assert r == Replace(j, keys[0], JStr(value));
        case JStr(_) =>
      } else {
        var child := Assign(Member(j, keys[0]), keys[1..], value).value;
        ReplaceOtherMember(j, keys[0], q[0], child);
      }
    } else {
      assert |keys| > 1 && |q| > 1;
      var c := Member(j, keys[0]);
      var child := Assign(c, keys[1..], value).value;
      ReplaceMember(j, keys[0], child);
      assert !(q[1..] <= keys[1..]) && !(keys[1..] <= q[1..]);
      AssignKeepsOtherPaths(c.value, keys[1..], value, q[1..]);
    }
  }

  /**
   * An assignment succeeds exactly when every key but the last reads an existing
   * object or array and the last key can be set on it: a missing intermediate
   * segment makes it throw.
   */
  lemma {:induction false} AssignSucceedsIff(j: Option<Json>, keys: seq<string>, value: string)
    requires |keys| >= 1
    decreases |keys|
    ensures Assign(j, keys, value).Success? <==>
      (var t := Read(j, keys[..|keys| - 1]); t.Some? && Settable(t.value, keys[|keys| - 1]))
  {
    if j.Some? && |keys| > 1 {
      AssignSucceedsIff(Member(j.value, keys[0]), keys[1..], value);
      assert keys[1..][..|keys[1..]| - 1] == keys[..|keys| - 1][1..];
    } else if j.None? && |keys| > 1 {
      ReadUndefined(keys[..|keys| - 1]);
    }
  }

  lemma {:induction false} ReadUndefined(path: seq<string>)
    ensures Read(None, path) == None
  {
  }
}
