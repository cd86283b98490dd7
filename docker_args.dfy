/**
 * The docker command lines the container API builds: `ps` (list), `run`,
 * `logs`, `inspect` and `rmi`. Each request is a value assembled by builder
 * calls; the command line is a function of that value alone, so building a
 * request sends nothing, and the order of the builder calls does not matter.
 */
module DockerArgs {
  import opened Wrappers

  /** The two format options every listing ends with. */
  const ListFormats: seq<string> := ["--format", "\"{{json .}}\"", "--format", "\"{{.ID}}\""]

  function IdFilter(id: string): string
  {
    "\"id=" + id + "\""
  }

  function LabelFilter(key: string, value: string): string
  {
    "\"label=" + key + "=" + value + "\""
  }

  /** A listing request: all containers or running ones, an optional id filter and an optional label filter. */
  datatype ListSpec = ListSpec(all: bool, idFilter: Option<string>, labelFilter: Option<(string, string)>)

  const NoListOptions: ListSpec := ListSpec(false, None, None)

  function WithAll(s: ListSpec): ListSpec
  {
    s.(all := true)
  }

  function WithIdFilter(s: ListSpec, id: string): ListSpec
  {
    s.(idFilter := Some(id))
  }

  function WithLabelFilter(s: ListSpec, key: string, value: string): ListSpec
  {
    s.(labelFilter := Some((key, value)))
  }

  function Flag(on: bool, flag: string): (r: seq<string>)
    ensures |r| == if on then 1 else 0
    ensures on ==> r[0] == flag
  {
    if on then [flag] else []
  }

  function Count(on: bool): nat
  {
    if on then 1 else 0
  }

  /**
   * `docker ps`: `-a` first when all containers are asked for, then the id
   * filter, then the label filter, then the two formats.
   */
  function ListArgs(s: ListSpec): (argv: seq<string>)
    ensures var a, i, l := Count(s.all), 2 * Count(s.idFilter.Some?), 2 * Count(s.labelFilter.Some?);
      && |argv| == 6 + a + i + l
      && argv[..2] == ["docker", "ps"]
      && (s.all ==> argv[2] == "-a")
      && (s.idFilter.Some? ==> argv[2 + a] == "--filter" && argv[3 + a] == IdFilter(s.idFilter.value))
      && (s.labelFilter.Some? ==>
            argv[2 + a + i] == "--filter" && argv[3 + a + i] == LabelFilter(s.labelFilter.value.0, s.labelFilter.value.1))
      && argv[2 + a + i + l..] == ListFormats
  {
    ["docker", "ps"] + Flag(s.all, "-a")
    + (if s.idFilter.Some? then ["--filter", IdFilter(s.idFilter.value)] else [])
    + (if s.labelFilter.Some? then ["--filter", LabelFilter(s.labelFilter.value.0, s.labelFilter.value.1)] else [])
    + ListFormats
  }

  /** Different listing requests give different command lines, as long as label keys hold no `=`. */
  lemma {:induction false} ListArgsInjective(s: ListSpec, t: ListSpec)
    requires s.labelFilter.Some? ==> '=' !in s.labelFilter.value.0
    requires t.labelFilter.Some? ==> '=' !in t.labelFilter.value.0
    requires ListArgs(s) == ListArgs(t)
    ensures s == t
  {
    var argv := ListArgs(s);
    // Position 2 holds "-a" exactly for a listing of all containers.
    assert (ListArgs(s)[2] == "-a") == s.all;
    assert (ListArgs(t)[2] == "-a") == t.all;
    var a := Count(s.all);
    assert s.idFilter.Some? == t.idFilter.Some? && s.labelFilter.Some? == t.labelFilter.Some? by {
      if s.idFilter.Some? != t.idFilter.Some? || s.labelFilter.Some? != t.labelFilter.Some? {
        FilterKinds(s, t, a);
      }
    }
    if s.idFilter.Some? {
      assert IdFilter(s.idFilter.value) == IdFilter(t.idFilter.value) == argv[3 + a];
      IdFilterInjective(s.idFilter.value, t.idFilter.value);
    }
    if s.labelFilter.Some? {
      var i := 2 * Count(s.idFilter.Some?);
      assert LabelFilter(s.labelFilter.value.0, s.labelFilter.value.1) == argv[3 + a + i];
      LabelFilterInjective(s.labelFilter.value.0, s.labelFilter.value.1, t.labelFilter.value.0, t.labelFilter.value.1);
    }
  }

  /** Both listings agree on `-a` and on their length, so they hold the same filters. */
  lemma FilterKinds(s: ListSpec, t: ListSpec, a: nat)
    requires ListArgs(s) == ListArgs(t) && s.all == t.all && a == Count(s.all)
    ensures s.idFilter.Some? == t.idFilter.Some? && s.labelFilter.Some? == t.labelFilter.Some?
  {
    // The token after the first "--filter" names the kind of the first filter.
    assert s.idFilter.Some? || s.labelFilter.Some? ==>
      ListArgs(s)[3 + a][1] == if s.idFilter.Some? then 'i' else 'l';
    assert t.idFilter.Some? || t.labelFilter.Some? ==>
      ListArgs(t)[3 + a][1] == if t.idFilter.Some? then 'i' else 'l';
  }

  lemma IdFilterInjective(x: string, y: string)
    requires IdFilter(x) == IdFilter(y)
    ensures x == y
  {
    assert x == IdFilter(x)[4..|IdFilter(x)| - 1];
    assert y == IdFilter(y)[4..|IdFilter(y)| - 1];
  }

  lemma {:induction false} LabelFilterInjective(k1: string, v1: string, k2: string, v2: string)
    requires '=' !in k1 && '=' !in k2
    requires LabelFilter(k1, v1) == LabelFilter(k2, v2)
    ensures k1 == k2 && v1 == v2
  {
    var f := LabelFilter(k1, v1);
    var body := f[7..|f| - 1];
    assert body == k1 + "=" + v1;
    assert body == k2 + "=" + v2;
    KeyLength(k1, v1, k2, v2, body);
    KeyLength(k2, v2, k1, v1, body);
    assert k1 == body[..|k1|] && k2 == body[..|k2|];
    assert v1 == body[|k1| + 1..] && v2 == body[|k2| + 1..];
  }

  /** A key without `=` ends at the first `=` of `key=value`. */
  lemma KeyLength(k1: string, v1: string, k2: string, v2: string, body: string)
    requires '=' !in k1 && '=' !in k2
    requires body == k1 + "=" + v1 && body == k2 + "=" + v2
    ensures |k1| <= |k2|
  {
    assert body[|k2|] == '=';
    assert forall i :: 0 <= i < |k1| ==> body[i] == k1[i];
  }

  /** `docker inspect` of one container, as JSON. */
  function InspectArgs(id: string): (argv: seq<string>)
    ensures |argv| == 5 && argv[..4] == ["docker", "inspect", "--format", "\"{{json .}}\""] && argv[4] == id
  {
    ["docker", "inspect", "--format", "\"{{json .}}\"", id]
  }

  /** `docker logs`, with `-f` before the id when following. */
  function LogsArgs(id: string, follow: bool): (argv: seq<string>)
    ensures |argv| == 3 + Count(follow) && argv[..2] == ["docker", "logs"] && argv[|argv| - 1] == id
    ensures follow ==> argv[2] == "-f"
  {
    ["docker", "logs"] + Flag(follow, "-f") + [id]
  }

  /** Labels in the order they were given (a `LinkedHashMap` in the source). */
  type Labels = seq<(string, string)>

  /** One label as the `--label` value: `"k=v"`, quoted. */
  function LabelText(l: (string, string)): string
  {
    "\"" + l.0 + "=" + l.1 + "\""
  }

  /** The label options of `run`: `--label "k=v"` per label, in order. */
  function LabelArgs(ls: Labels): (argv: seq<string>)
    ensures |argv| == 2 * |ls|
    ensures forall i :: 0 <= i < |ls| ==> argv[2 * i] == "--label" && argv[2 * i + 1] == LabelText(ls[i])
  {
    if ls == [] then []
    else
      var rest := LabelArgs(ls[1..]);
      var r := ["--label", LabelText(ls[0])] + rest;
      forall i | 1 <= i < |ls|
        ensures r[2 * i] == "--label" && r[2 * i + 1] == LabelText(ls[i])
      {
        assert ls[i] == ls[1..][i - 1];
        assert r[2 * i] == rest[2 * (i - 1)] && r[2 * i + 1] == rest[2 * (i - 1) + 1];
      }
      r
  }

  /** A run request: the image, its labels and whether the container is removed on exit. */
  datatype RunSpec = RunSpec(image: string, labels: Labels, remove: bool)

  function NewRun(image: string): RunSpec
  {
    RunSpec(image, [], false)
  }

  function WithLabels(s: RunSpec, labels: Labels): RunSpec
  {
    s.(labels := labels)
  }

  function WithRemove(s: RunSpec): RunSpec
  {
    s.(remove := true)
  }

  /** `docker run -d`: `--rm` when removing, the labels in order, then the image last. */
  function RunArgs(s: RunSpec): (argv: seq<string>)
    ensures var r := Count(s.remove);
      && |argv| == 4 + r + 2 * |s.labels|
      && argv[..3] == ["docker", "run", "-d"]
      && (s.remove ==> argv[3] == "--rm")
      && argv[3 + r..|argv| - 1] == LabelArgs(s.labels)
      && argv[|argv| - 1] == s.image
  {
    var argv := ["docker", "run", "-d"] + Flag(s.remove, "--rm") + LabelArgs(s.labels) + [s.image];
    assert argv[3 + Count(s.remove)..|argv| - 1] == LabelArgs(s.labels);
    argv
  }

  /** An image removal request; it holds at least one image id. */
  datatype RmImagesSpec = RmImagesSpec(ids: seq<string>, force: bool, noPrune: bool)

  const EmptyImageIds: string := "Image IDs must not be empty"

  /** The constructor: refuses an empty id list. */
  function NewRmImages(ids: seq<string>): (r: Result<RmImagesSpec>)
    ensures r.Err? <==> ids == []
    ensures r.Err? ==> r.error == IllegalArgument(EmptyImageIds)
    ensures r.Ok? ==> r.value == RmImagesSpec(ids, false, false)
  {
    if ids == [] then Err(IllegalArgument(EmptyImageIds)) else Ok(RmImagesSpec(ids, false, false))
  }

  function WithForce(s: RmImagesSpec): RmImagesSpec
  {
    s.(force := true)
  }

  function WithNoPrune(s: RmImagesSpec): RmImagesSpec
  {
    s.(noPrune := true)
  }

  /** `toCommand`: `docker rmi`, `--force` before `--no-prune`, then the ids in order. */
  function RmImagesArgs(s: RmImagesSpec): (argv: seq<string>)
    ensures var f, p := Count(s.force), Count(s.noPrune);
      && |argv| == 2 + f + p + |s.ids|
      && argv[..2] == ["docker", "rmi"]
      && (s.force ==> argv[2] == "--force")
      && (s.noPrune ==> argv[2 + f] == "--no-prune")
      && argv[2 + f + p..] == s.ids
  {
    ["docker", "rmi"] + Flag(s.force, "--force") + Flag(s.noPrune, "--no-prune") + s.ids
  }

  /** The flags come out in the same order whichever was set first. */
  lemma RmImagesOrderIrrelevant(s: RmImagesSpec)
    ensures RmImagesArgs(WithForce(WithNoPrune(s))) == RmImagesArgs(WithNoPrune(WithForce(s)))
    ensures RmImagesArgs(WithForce(WithNoPrune(s)))[..4] == ["docker", "rmi", "--force", "--no-prune"]
  {
  }

  /** Reading a removal request back off its command line, for ids that do not look like the two flags. */
  function ParseRmImages(argv: seq<string>): (r: Option<RmImagesSpec>)
  {
    if |argv| < 2 || argv[..2] != ["docker", "rmi"] then None
    else
      var force := |argv| > 2 && argv[2] == "--force";
      var at := 2 + Count(force);
      var noPrune := |argv| > at && argv[at] == "--no-prune";
      Some(RmImagesSpec(argv[at + Count(noPrune)..], force, noPrune))
  }

  /** The command line determines the request: parsing it back gives the request. */
  lemma RmImagesRoundTrip(s: RmImagesSpec)
    requires s.ids != [] ==> s.ids[0] != "--force" && s.ids[0] != "--no-prune"
    ensures ParseRmImages(RmImagesArgs(s)) == Some(s)
  {
    var argv := RmImagesArgs(s);
    var f, p := Count(s.force), Count(s.noPrune);
    if !s.force && |argv| > 2 {
      assert argv[2] == (if s.noPrune then "--no-prune" else s.ids[0]);
    }
    if !s.noPrune && |argv| > 2 + f {
      assert argv[2 + f] == s.ids[0];
    }
  }
}
