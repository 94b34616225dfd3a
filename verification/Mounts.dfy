/**
 Resolving checkpoint mount selectors against the guest's mount table. A mount line is given
 split at its separator and at white space; selectors, tags and paths are byte strings.
 */
module Mounts {
  import opened Prelude
  import opened ByteOrder
  import opened MountPaths

  /** `None` stands for a line without the separator. */
  type Line = Option<Entry>

  datatype Entry = Entry(fields: seq<Text>, filesystem: seq<Text>)

  datatype Error =
    | InvalidSelector
    | MalformedLine
    | MissingType
    | MissingTag
    | MissingMountpoint
    | BadMountpoint(cause: DecodeError)
    | Absent(tags: set<Text>, paths: set<Text>)

  const SLASH: byte := 47
  const DOT: byte := 46

  /** "path:" and "virtiofs". */
  const PATH_PREFIX: Text := [112, 97, 116, 104, 58]
  const VIRTIOFS: Text := [118, 105, 114, 116, 105, 111, 102, 115]

  // ---- selectors ----

  predicate IsPath(selector: Text)
  {
    PATH_PREFIX <= selector
  }

  function PathOf(selector: Text): Text
    requires IsPath(selector)
  {
    selector[|PATH_PREFIX|..]
  }

  /** The component of `path` that starts at `i` and ends before `j` is "." or "..". */
  predicate DotPart(path: Text, i: nat, j: nat)
  {
    && i <= j <= |path|
    && (i == 0 || path[i - 1] == SLASH) && (j == |path| || path[j] == SLASH)
    && (path[i..j] == [DOT] || path[i..j] == [DOT, DOT])
  }

  predicate ValidPath(path: Text)
  {
    path != [] && path[0] == SLASH && 0 !in path && forall i, j | 0 <= i <= j <= |path| :: !DotPart(path, i, j)
  }

  function Tags(expected: seq<Text>): set<Text>
  {
    set s | s in expected && !IsPath(s)
  }

  function Paths(expected: seq<Text>): set<Text>
  {
    set s | s in expected && IsPath(s) :: PathOf(s)
  }

  predicate SelectorsOk(expected: seq<Text>)
  {
    forall s :: s in expected && IsPath(s) ==> ValidPath(PathOf(s))
  }

  // ---- lines ----

  predicate LineOk(line: Line)
  {
    && line.Some? && line.value.filesystem != []
    && (line.value.filesystem[0] == VIRTIOFS ==> |line.value.filesystem| > 1)
  }

  /** The tag of a virtiofs mount. */
  function Tag(line: Line): Option<Text>
  {
    if line.Some? && |line.value.filesystem| > 1 && line.value.filesystem[0] == VIRTIOFS
    then Some(line.value.filesystem[1]) else None
  }

  function Mount(line: Line): Result<Text, Error>
  {
    if line.None? || |line.value.fields| <= 4 then Err(MissingMountpoint)
    else match Decode(line.value.fields[4])
      case Err(cause) => Err(BadMountpoint(cause))
      case Ok(path) => Ok(path)
  }

  /** Requested tags that no line before `i` bears. */
  function TagsLeft(expected: seq<Text>, lines: seq<Line>, i: nat): set<Text>
    requires i <= |lines|
  {
    set t | t in Tags(expected) && forall j | 0 <= j < i :: Tag(lines[j]) != Some(t)
  }

  /** Requested paths that are the mountpoint of no line before `i`. */
  function PathsLeft(expected: seq<Text>, lines: seq<Line>, i: nat): set<Text>
    requires i <= |lines|
  {
    set p | p in Paths(expected) && forall j | 0 <= j < i :: Mount(lines[j]) != Ok(p)
  }

  /** Line `i` is the first to bear a requested tag. */
  predicate FirstBearer(expected: seq<Text>, lines: seq<Line>, i: nat)
    requires i < |lines|
  {
    Tag(lines[i]).Some? && Tag(lines[i]).value in TagsLeft(expected, lines, i)
  }

  /** The mountpoint of line `i` matters: a tag is found there, or some path is still sought. */
  predicate Inspected(expected: seq<Text>, lines: seq<Line>, i: nat)
    requires i < |lines|
  {
    FirstBearer(expected, lines, i) || PathsLeft(expected, lines, i) != {}
  }

  predicate Readable(expected: seq<Text>, lines: seq<Line>, i: nat)
    requires i < |lines|
  {
    LineOk(lines[i]) && (Inspected(expected, lines, i) ==> Mount(lines[i]).Ok?)
  }

  /** The request resolves: selectors and every line that matters are readable, and nothing is missing. */
  predicate Resolvable(expected: seq<Text>, lines: seq<Line>)
  {
    && SelectorsOk(expected)
    && (forall i | 0 <= i < |lines| :: Readable(expected, lines, i))
    && TagsLeft(expected, lines, |lines|) == {} && PathsLeft(expected, lines, |lines|) == {}
  }

  /** `p` was requested, or is the mountpoint of the first line that bears a requested tag. */
  predicate Wanted(expected: seq<Text>, lines: seq<Line>, p: Text)
  {
    p in Paths(expected) || exists i | 0 <= i < |lines| :: FirstBearer(expected, lines, i) && Mount(lines[i]) == Ok(p)
  }

  // ---- one line ----

  lemma LeftAfter(expected: seq<Text>, lines: seq<Line>, i: nat)
    requires i < |lines|
    ensures TagsLeft(expected, lines, i + 1) ==
            if Tag(lines[i]).Some? then TagsLeft(expected, lines, i) - {Tag(lines[i]).value}
            else TagsLeft(expected, lines, i)
    ensures PathsLeft(expected, lines, i + 1) ==
            if Mount(lines[i]).Ok? then PathsLeft(expected, lines, i) - {Mount(lines[i]).value}
            else PathsLeft(expected, lines, i)
  {
  }

  /** What is selected before line `i`: the paths and tags found so far. */
  predicate Found(expected: seq<Text>, lines: seq<Line>, i: nat, p: Text)
    requires i <= |lines|
  {
    || (p in Paths(expected) && p !in PathsLeft(expected, lines, i))
    || exists j | 0 <= j < i :: FirstBearer(expected, lines, j) && Mount(lines[j]) == Ok(p)
  }

  lemma FoundAfter(expected: seq<Text>, lines: seq<Line>, i: nat, p: Text)
    requires i < |lines|
    ensures Found(expected, lines, i + 1, p) <==>
            || Found(expected, lines, i, p)
            || (Mount(lines[i]) == Ok(p) && (p in PathsLeft(expected, lines, i) || FirstBearer(expected, lines, i)))
  {
    LeftAfter(expected, lines, i);
  }

  lemma FoundAtTheEnd(expected: seq<Text>, lines: seq<Line>, p: Text)
    requires PathsLeft(expected, lines, |lines|) == {}
    ensures Found(expected, lines, |lines|, p) <==> Wanted(expected, lines, p)
  {
  }

  ghost predicate SelectedOk(expected: seq<Text>, lines: seq<Line>, i: nat, selected: seq<Text>)
    requires i <= |lines|
  {
    Sorted(selected) && forall p :: p in Elements(selected) <==> Found(expected, lines, i, p)
  }

  lemma NothingSelected(expected: seq<Text>, lines: seq<Line>, i: nat, selected: seq<Text>)
    requires i < |lines| && SelectedOk(expected, lines, i, selected) && !FirstBearer(expected, lines, i)
    requires Mount(lines[i]).Ok? ==> Mount(lines[i]).value !in PathsLeft(expected, lines, i)
    ensures SelectedOk(expected, lines, i + 1, selected)
  {
    forall p ensures p in Elements(selected) <==> Found(expected, lines, i + 1, p) {
      FoundAfter(expected, lines, i, p);
    }
  }

  lemma OneSelected(expected: seq<Text>, lines: seq<Line>, i: nat, before: seq<Text>, after: seq<Text>)
    requires i < |lines| && SelectedOk(expected, lines, i, before) && Mount(lines[i]).Ok?
    requires FirstBearer(expected, lines, i) || Mount(lines[i]).value in PathsLeft(expected, lines, i)
    requires Sorted(after) && Elements(after) == Elements(before) + {Mount(lines[i]).value}
    ensures SelectedOk(expected, lines, i + 1, after)
  {
    forall p ensures p in Elements(after) <==> Found(expected, lines, i + 1, p) {
      FoundAfter(expected, lines, i, p);
    }
  }

  // ---- the resolver ----

  method ParseSelectors(expected: seq<Text>) returns (ok: bool, tags: set<Text>, paths: set<Text>)
    ensures ok == SelectorsOk(expected)
    ensures ok ==> tags == Tags(expected) && paths == Paths(expected)
  {
    tags, paths := {}, {};
    for i := 0 to |expected|
      invariant tags == Tags(expected[..i]) && paths == Paths(expected[..i]) && SelectorsOk(expected[..i])
    {
      var selector := expected[i];
      assert expected[..i + 1] == expected[..i] + [selector];
      if IsPath(selector) {
        if !ValidPath(PathOf(selector)) {
          return false, tags, paths;
        }
        paths := paths + {PathOf(selector)};
      } else {
        tags := tags + {selector};
      }
    }
    assert expected[..|expected|] == expected;
    return true, tags, paths;
  }

  /** The mountpoint of one line; an error names what is missing. */
  method MountpointOf(entry: Entry) returns (r: Result<Text, Error>)
    ensures r == Mount(Some(entry))
  {
    if |entry.fields| <= 4 {
      return Err(MissingMountpoint);
    }
    var decoded := DecodeMountpoint(entry.fields[4]);
    match decoded
    case Err(cause) => return Err(BadMountpoint(cause));
    case Ok(path) => return Ok(path);
  }

  method ResolveMountpoints(expected: seq<Text>, lines: seq<Line>) returns (r: Result<seq<Text>, Error>)
    ensures r.Ok? <==> Resolvable(expected, lines)
    ensures r.Ok? ==> Sorted(r.value) && forall p :: p in r.value <==> Wanted(expected, lines, p)
    ensures r.Err? && r.error.Absent? <==>
            && SelectorsOk(expected) && (forall i | 0 <= i < |lines| :: Readable(expected, lines, i))
            && (TagsLeft(expected, lines, |lines|) != {} || PathsLeft(expected, lines, |lines|) != {})
    ensures r.Err? && r.error.Absent? ==>
            r.error.tags == TagsLeft(expected, lines, |lines|) && r.error.paths == PathsLeft(expected, lines, |lines|)
  {
    var ok, tags, paths := ParseSelectors(expected);
    if !ok {
      return Err(InvalidSelector);
    }
    var selected: seq<Text> := [];
    for i := 0 to |lines|
      invariant tags == TagsLeft(expected, lines, i) && paths == PathsLeft(expected, lines, i)
      invariant SelectedOk(expected, lines, i, selected)
      invariant forall j | 0 <= j < i :: Readable(expected, lines, j)
    {
      LeftAfter(expected, lines, i);
      if lines[i].None? {
        assert !Readable(expected, lines, i);
        return Err(MalformedLine);
      }
      var entry := lines[i].value;
      if entry.filesystem == [] {
        assert !Readable(expected, lines, i);
        return Err(MissingType);
      }
      var tag := None;
      if entry.filesystem[0] == VIRTIOFS {
        if |entry.filesystem| == 1 {
          assert !Readable(expected, lines, i);
          return Err(MissingTag);
        }
        tag := Some(entry.filesystem[1]);
      }
      assert tag == Tag(lines[i]);
      var selectedTag := tag.Some? && tag.value in tags;
      if !selectedTag && paths == {} {
        NothingSelected(expected, lines, i, selected);
        continue;
      }
      var mountpoint := MountpointOf(entry);
      if mountpoint.Err? {
        assert !Readable(expected, lines, i);
        return Err(mountpoint.error);
      }
      var path := mountpoint.value;
      var selectedPath := path in paths;
      ghost var before := selected;
      paths := paths - {path};
      if selectedTag {
        tags := tags - {tag.value};
      }
      if selectedTag || selectedPath {
        selected := Insert(selected, path);
        OneSelected(expected, lines, i, before, selected);
      } else {
        NothingSelected(expected, lines, i, selected);
      }
    }
    if tags == {} && paths == {} {
      forall p ensures p in selected <==> Wanted(expected, lines, p) {
        FoundAtTheEnd(expected, lines, p);
        assert p in selected <==> p in Elements(selected);
      }
      return Ok(selected);
    }
    return Err(Absent(tags, paths));
  }
}
