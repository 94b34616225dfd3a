/**
 Schema references in an OpenAPI document: collecting them, closing over the schemas they
 name, and selecting the components to publish.
 */
module SchemaRefs {
  import opened Prelude

  datatype Json = Obj(members: seq<Member>) | Arr(items: seq<Json>) | Str(text: string) | Scalar

  datatype Member = Member(key: string, value: Json)

  const REF_PREFIX: string := "#/components/schemas/"

  /** The value under `key`. */
  function Get(members: seq<Member>, key: string): Option<Json>
  {
    if members == [] then None
    else if members[0].key == key then Some(members[0].value)
    else Get(members[1..], key)
  }

  /** The text after the last slash. */
  function Basename(s: string): (r: string)
    ensures |r| <= |s|
  {
    if s == [] then []
    else if s[|s| - 1] == '/' then []
    else Basename(s[..|s| - 1]) + [s[|s| - 1]]
  }

  /** The schema an object refers to itself. */
  function OwnRef(n: Json): Option<string>
  {
    if !n.Obj? then None
    else match Get(n.members, "$ref")
      case Some(Str(text)) => if REF_PREFIX <= text then Some(Basename(text)) else None
      case _ => None
  }

  function OwnRefs(n: Json): set<string>
  {
    if OwnRef(n).Some? then {OwnRef(n).value} else {}
  }

  function Children(n: Json): (r: seq<Json>)
    ensures forall i :: 0 <= i < |r| ==> r[i] < n
  {
    match n
    case Obj(members) => seq(|members|, i requires 0 <= i < |members| => members[i].value)
    case Arr(items) => items
    case _ => []
  }

  // ---- every reference below a node ----

  /** The node reached by descending along child positions. */
  function At(n: Json, route: seq<nat>): Option<Json>
    decreases |route|
  {
    if route == [] then Some(n)
    else if route[0] < |Children(n)| then At(Children(n)[route[0]], route[1..])
    else None
  }

  ghost predicate RefersAt(n: Json, route: seq<nat>, name: string)
  {
    At(n, route).Some? && OwnRef(At(n, route).value) == Some(name)
  }

  /** `name` is referred to somewhere at or below `n`. */
  ghost predicate Mentions(n: Json, name: string)
  {
    exists route :: RefersAt(n, route, name)
  }

  lemma MentionsBelow(n: Json, i: nat, name: string)
    requires i < |Children(n)| && Mentions(Children(n)[i], name)
    ensures Mentions(n, name)
  {
    var route :| RefersAt(Children(n)[i], route, name);
    assert ([i] + route)[1..] == route;
    assert RefersAt(n, [i] + route, name);
  }

  /** Add every reference at or below the node to `refs`. */
  method CollectRefs(n: Json, refs: set<string>) returns (r: set<string>)
    ensures forall name :: name in r <==> name in refs || Mentions(n, name)
    decreases n
  {
    r := refs + OwnRefs(n);
    if OwnRef(n).Some? {
      assert RefersAt(n, [], OwnRef(n).value);
    }
    var children := Children(n);
    for i := 0 to |children|
      invariant refs + OwnRefs(n) <= r
      invariant forall name :: name in r ==> name in refs || Mentions(n, name)
      invariant forall name, j :: 0 <= j < i && Mentions(children[j], name) ==> name in r
    {
      var before := r;
      r := CollectRefs(children[i], r);
      forall name | name in r ensures name in refs || Mentions(n, name) {
        if name !in before {
          MentionsBelow(n, i, name);
        }
      }
    }
    forall name | Mentions(n, name) ensures name in r {
      var route :| RefersAt(n, route, name);
      if route != [] {
        assert RefersAt(children[route[0]], route[1..], name);
      }
    }
  }

  // ---- the closure ----

  type Schemas = map<string, Json>

  /** `s` holds whatever its members' schemas refer to. */
  ghost predicate ClosedUnder(schemas: Schemas, s: set<string>)
  {
    forall name, other :: name in s && name in schemas && Mentions(schemas[name], other) ==> other in s
  }

  ghost predicate Covers(paths: Json, s: set<string>)
  {
    forall name :: Mentions(paths, name) ==> name in s
  }

  /** The smallest set that covers the paths and is closed. */
  ghost predicate IsClosure(paths: Json, schemas: Schemas, refs: set<string>)
  {
    && Covers(paths, refs) && ClosedUnder(schemas, refs)
    && forall s :: Covers(paths, s) && ClosedUnder(schemas, s) ==> refs <= s
  }

  /** References of all schemas named in `refs`. */
  method Referenced(schemas: Schemas, refs: set<string>) returns (extra: set<string>)
    ensures forall other :: other in extra <==>
              exists name :: name in refs && name in schemas && Mentions(schemas[name], other)
  {
    extra := {};
    var left := refs;
    while left != {}
      invariant left <= refs
      invariant forall other :: other in extra <==>
                  exists name :: name in refs - left && name in schemas && Mentions(schemas[name], other)
      decreases |left|
    {
      var name :| name in left;
      left := left - {name};
      if name in schemas {
        extra := CollectRefs(schemas[name], extra);
      }
    }
  }

  /** A node refers to finitely many names. */
  lemma {:induction false} NamesBelow(n: Json) returns (s: set<string>)
    ensures forall name :: Mentions(n, name) ==> name in s
    decreases n
  {
    s := OwnRefs(n);
    var children := Children(n);
    for i := 0 to |children|
      invariant OwnRefs(n) <= s
      invariant forall name, j :: 0 <= j < i && Mentions(children[j], name) ==> name in s
    {
      var below := NamesBelow(children[i]);
      s := s + below;
    }
    forall name | Mentions(n, name) ensures name in s {
      var route :| RefersAt(n, route, name);
      if route != [] {
        assert RefersAt(children[route[0]], route[1..], name);
      }
    }
  }

  lemma {:induction false} NamesInSchemas(schemas: Schemas, keys: set<string>) returns (s: set<string>)
    requires keys <= schemas.Keys
    ensures forall name, other :: name in keys && Mentions(schemas[name], other) ==> other in s
    decreases |keys|
  {
    s := {};
    if keys != {} {
      var name :| name in keys;
      var below := NamesBelow(schemas[name]);
      var rest := NamesInSchemas(schemas, keys - {name});
      s := below + rest;
    }
  }

  lemma Shrinks(bound: set<string>, refs: set<string>, extra: set<string>)
    requires refs <= bound && extra <= bound && !(extra <= refs)
    ensures refs + extra <= bound && |bound - (refs + extra)| < |bound - refs|
  {
    assert bound - refs == (bound - (refs + extra)) + (extra - refs);
    var x :| x in extra - refs;
  }

  /** Grow the references until the schemas they name add none. */
  method Close(paths: Json, schemas: Schemas) returns (refs: set<string>)
    ensures IsClosure(paths, schemas, refs)
  {
    refs := CollectRefs(paths, {});
    ghost var names := NamesInSchemas(schemas, schemas.Keys);
    ghost var bound := names + refs;
    while true
      invariant refs <= bound && Covers(paths, refs)
      invariant forall s :: Covers(paths, s) && ClosedUnder(schemas, s) ==> refs <= s
      decreases |bound - refs|
    {
      var extra := Referenced(schemas, refs);
      if extra <= refs {
        break;
      }
      Shrinks(bound, refs, extra);
      refs := refs + extra;
    }
  }

  // ---- publishing ----

  const SANDBOX_SPEC: string := "CloudSandboxSpec"
  const ROOTFS: string := "CloudRootfsSource"

  /** The upstream schemas, overridden by the injected ones. */
  function AllSchemas(upstream: Schemas, injected: Schemas): Schemas
  {
    upstream + injected
  }

  function Put(members: seq<Member>, key: string, value: Json): seq<Member>
  {
    if members == [] then []
    else if members[0].key == key then [Member(key, value)] + members[1..]
    else [members[0]] + Put(members[1..], key, value)
  }

  /** The properties of a schema, if they include an image. */
  function ImageProperties(schema: Json): Option<seq<Member>>
  {
    if !schema.Obj? then None
    else match Get(schema.members, "properties")
      case Some(Obj(props)) => if Get(props, "image").Some? then Some(props) else None
      case _ => None
  }

  function ImageRef(): Json
  {
    Obj([Member("$ref", Str(REF_PREFIX + ROOTFS))])
  }

  /** Point the sandbox's image at the injected schema. */
  function Rewritten(schema: Json): Json
    requires ImageProperties(schema).Some?
  {
    Obj(Put(schema.members, "properties", Obj(Put(ImageProperties(schema).value, "image", ImageRef()))))
  }

  datatype Error = Dangling(names: set<string>)

  /** The sandbox schema names an image to rewrite. */
  predicate Rewrites(schemas: Schemas)
  {
    SANDBOX_SPEC in schemas && ImageProperties(schemas[SANDBOX_SPEC]).Some?
  }

  /** What is published under `name`: the schema itself, or the rewritten sandbox schema. */
  function Published(schemas: Schemas, name: string): Json
    requires name in schemas
  {
    if name == SANDBOX_SPEC && Rewrites(schemas) then Rewritten(schemas[name]) else schemas[name]
  }

  /**
   The published components: exactly the closure of the paths' references, plus the injected
   image schema when the rewrite refers to it. `refs` is the closure before the rewrite.
   */
  method Select(paths: Json, upstream: Schemas, injected: Schemas)
      returns (r: Result<Schemas, Error>, ghost refs: set<string>)
    requires ROOTFS in injected && Plain(injected[ROOTFS])
    ensures IsClosure(paths, AllSchemas(upstream, injected), refs)
    ensures r.Err? <==> !(refs <= AllSchemas(upstream, injected).Keys)
    ensures r.Err? ==> r.error.names == refs - AllSchemas(upstream, injected).Keys
    ensures r.Ok? ==> r.value.Keys == if Rewrites(AllSchemas(upstream, injected)) then refs + {ROOTFS} else refs
    ensures r.Ok? ==> forall name :: name in r.value ==>
              name in AllSchemas(upstream, injected) && r.value[name] == Published(AllSchemas(upstream, injected), name)
    ensures r.Ok? ==> Covers(paths, r.value.Keys) && ClosedUnder(r.value, r.value.Keys)
  {
    var schemas := AllSchemas(upstream, injected);
    var names := Close(paths, schemas);
    refs := names;
    var dangling := names - schemas.Keys;
    if dangling != {} {
      return Err(Dangling(dangling)), refs;
    }
    forall name | name in names ensures name in schemas {
      assert name !in dangling;
    }
    if Rewrites(schemas) {
      RewriteKeepsClosed(schemas, names);
      schemas := schemas[SANDBOX_SPEC := Rewritten(schemas[SANDBOX_SPEC])];
      names := names + {ROOTFS};
    }
    PublishedAreClosed(schemas, names);
    return Ok(map name | name in names :: schemas[name]), refs;
  }

  lemma PublishedAreClosed(schemas: Schemas, names: set<string>)
    requires names <= schemas.Keys && ClosedUnder(schemas, names)
    ensures ClosedUnder(map name | name in names :: schemas[name], names)
  {
  }

  // ---- the rewrite ----

  lemma SubObjectMentions(members: seq<Member>, key: string, name: string)
    requires Get(members, key).Some? && Mentions(Get(members, key).value, name)
    ensures Mentions(Obj(members), name)
  {
    var i := IndexOf(members, key);
    assert Children(Obj(members))[i] == members[i].value;
    MentionsBelow(Obj(members), i, name);
  }

  lemma {:induction false} IndexOf(members: seq<Member>, key: string) returns (i: nat)
    requires Get(members, key).Some?
    ensures i < |members| && members[i].value == Get(members, key).value && members[i].key == key
    decreases |members|
  {
    if members[0].key == key {
      i := 0;
    } else {
      var j := IndexOf(members[1..], key);
      i := j + 1;
    }
  }

  lemma {:induction false} PutShape(members: seq<Member>, key: string, value: Json)
    ensures var out := Put(members, key, value);
            && |out| == |members|
            && (forall i :: 0 <= i < |out| ==> out[i] == members[i] || out[i] == Member(key, value))
    decreases |members|
  {
    if members != [] && members[0].key != key {
      PutShape(members[1..], key, value);
      var out := Put(members, key, value);
      forall i | 0 <= i < |out| ensures out[i] == members[i] || out[i] == Member(key, value) {
        if i > 0 {
          assert out[i] == Put(members[1..], key, value)[i - 1] && members[i] == members[1..][i - 1];
        }
      }
    }
  }

  lemma {:induction false} PutGet(members: seq<Member>, key: string, value: Json, other: string)
    ensures Get(Put(members, key, value), other) ==
            if other == key && Get(members, key).Some? then Some(value) else Get(members, other)
    decreases |members|
  {
    if members != [] && members[0].key != key {
      PutGet(members[1..], key, value, other);
      assert Put(members, key, value)[1..] == Put(members[1..], key, value);
    } else if members != [] {
      assert Put(members, key, value)[1..] == members[1..];
    }
  }

  /** The rewrite points the image at the injected schema and leaves every other member and property alone. */
  lemma RewriteChangesOnlyTheImage(schema: Json, key: string, property: string)
    requires ImageProperties(schema).Some?
    ensures key != "properties" ==> Get(Rewritten(schema).members, key) == Get(schema.members, key)
    ensures ImageProperties(Rewritten(schema)).Some?
    ensures Get(ImageProperties(Rewritten(schema)).value, property) ==
            if property == "image" then Some(ImageRef()) else Get(ImageProperties(schema).value, property)
    ensures OwnRef(ImageRef()) == Some(ROOTFS)
  {
    var props := ImageProperties(schema).value;
    PutGet(schema.members, "properties", Obj(Put(props, "image", ImageRef())), key);
    PutGet(schema.members, "properties", Obj(Put(props, "image", ImageRef())), "properties");
    PutGet(props, "image", ImageRef(), property);
    PutGet(props, "image", ImageRef(), "image");
    BasenameOf(REF_PREFIX, ROOTFS);
  }

  /** Replacing a member adds at most the references of the new value. */
  lemma PutMentions(members: seq<Member>, key: string, value: Json, name: string)
    requires Mentions(Obj(Put(members, key, value)), name) && key != "$ref"
    ensures Mentions(Obj(members), name) || Mentions(value, name)
  {
    var out := Obj(Put(members, key, value));
    var route :| RefersAt(out, route, name);
    PutShape(members, key, value);
    PutGet(members, key, value, "$ref");
    if route == [] {
      assert OwnRef(out) == OwnRef(Obj(members));
      assert RefersAt(Obj(members), [], name);
    } else {
      var i := route[0];
      assert Children(out)[i] == out.members[i].value;
      assert RefersAt(out.members[i].value, route[1..], name);
      if out.members[i] == members[i] {
        assert Children(Obj(members))[i] == members[i].value;
        MentionsBelow(Obj(members), i, name);
      }
    }
  }

  lemma OneMemberMentions(key: string, text: string, name: string)
    requires Mentions(Obj([Member(key, Str(text))]), name)
    ensures OwnRef(Obj([Member(key, Str(text))])) == Some(name)
  {
    var n := Obj([Member(key, Str(text))]);
    var route :| RefersAt(n, route, name);
    if route != [] {
      assert Children(n) == [Str(text)];
      PlainMentionsNothing(Str(text), route[1..], name);
    }
  }

  lemma ImageRefMentions(name: string)
    requires Mentions(ImageRef(), name)
    ensures name == ROOTFS
  {
    OneMemberMentions("$ref", REF_PREFIX + ROOTFS, name);
    BasenameOf(REF_PREFIX, ROOTFS);
  }

  lemma {:induction false} BasenameOf(prefix: string, name: string)
    requires prefix != [] && prefix[|prefix| - 1] == '/' && '/' !in name
    ensures Basename(prefix + name) == name
  {
    if name == [] {
      assert prefix + name == prefix;
    } else {
      var s := prefix + name;
      assert s[..|s| - 1] == prefix + name[..|name| - 1] && s[|s| - 1] == name[|name| - 1];
      BasenameOf(prefix, name[..|name| - 1]);
    }
  }

  lemma RewrittenMentions(schema: Json, name: string)
    requires ImageProperties(schema).Some? && Mentions(Rewritten(schema), name)
    ensures Mentions(schema, name) || name == ROOTFS
  {
    var props := ImageProperties(schema).value;
    var changed := Obj(Put(props, "image", ImageRef()));
    PutMentions(schema.members, "properties", changed, name);
    if Mentions(changed, name) {
      PutMentions(props, "image", ImageRef(), name);
      if Mentions(Obj(props), name) {
        SubObjectMentions(schema.members, "properties", name);
      } else {
        ImageRefMentions(name);
      }
    }
  }

  /** No object at or below refers to a schema. */
  predicate Plain(n: Json)
    decreases n
  {
    OwnRef(n).None? && forall i | 0 <= i < |Children(n)| :: Plain(Children(n)[i])
  }

  lemma {:induction false} PlainMentionsNothing(n: Json, route: seq<nat>, name: string)
    requires Plain(n)
    ensures !RefersAt(n, route, name)
    decreases |route|
  {
    if route != [] && route[0] < |Children(n)| {
      PlainMentionsNothing(Children(n)[route[0]], route[1..], name);
    }
  }

  /** After the rewrite the references together with the injected schema are closed again. */
  lemma RewriteKeepsClosed(schemas: Schemas, refs: set<string>)
    requires refs <= schemas.Keys && ClosedUnder(schemas, refs) && SANDBOX_SPEC in schemas
    requires ROOTFS in schemas && Plain(schemas[ROOTFS]) && ImageProperties(schemas[SANDBOX_SPEC]).Some?
    ensures ClosedUnder(schemas[SANDBOX_SPEC := Rewritten(schemas[SANDBOX_SPEC])], refs + {ROOTFS})
  {
    var after := schemas[SANDBOX_SPEC := Rewritten(schemas[SANDBOX_SPEC])];
    forall name, other | name in refs + {ROOTFS} && name in after && Mentions(after[name], other)
      ensures other in refs + {ROOTFS}
    {
      if name == SANDBOX_SPEC {
        RewrittenMentions(schemas[SANDBOX_SPEC], other);
      } else if name == ROOTFS {
        var route :| RefersAt(after[name], route, other);
        PlainMentionsNothing(schemas[ROOTFS], route, other);
      }
    }
  }
}
