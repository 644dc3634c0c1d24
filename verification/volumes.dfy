/** `get_docker_volumes` (backend/main.py): the lines of
    `docker volume ls --format '{{.Name}}|{{.Driver}}'` become volume records,
    each classified by the first matching substring of its lower-cased name.
    The command itself is outside the model: its exit code and standard output
    are parameters. */
module Volumes {
  import opened Seqs
  import opened Text

  datatype Category = MongoDb | Milvus | Postgres | Redis | Other

  function CategoryName(c: Category): string {
    match c
    case MongoDb => "mongodb"
    case Milvus => "milvus"
    case Postgres => "postgres"
    case Redis => "redis"
    case Other => "other"
  }

  /** `VolumeInfo`; `size` is never filled in by the listing. */
  datatype VolumeInfo = VolumeInfo(name: string, driver: string, category: Category)

  /** The substring tests in the order the classifier tries them: the first
      rule with a word found in the lower-cased name decides. */
  const Rules: seq<(seq<string>, Category)> := [
    (["mongo"], MongoDb),
    (["milvus", "minio", "etcd"], Milvus),
    (["postgres"], Postgres),
    (["redis"], Redis)
  ]

  predicate MatchesAny(name: string, words: seq<string>) {
    exists i :: 0 <= i < |words| && Contains(name, words[i])
  }

  /** The first rule of `rules` matching `name`, as a reference definition. */
  function FirstMatch(rules: seq<(seq<string>, Category)>, name: string): Category
    decreases |rules|
  {
    if |rules| == 0 then Other
    else if MatchesAny(name, rules[0].0) then rules[0].1
    else FirstMatch(rules[1..], name)
  }

  /** The `if`/`elif` chain on `name.lower()`. */
  function Categorize(name: string): (c: Category)
    ensures c == MongoDb <==> Contains(Lower(name), "mongo")
    ensures c == Other <==>
      !Contains(Lower(name), "mongo") && !Contains(Lower(name), "milvus") && !Contains(Lower(name), "minio")
      && !Contains(Lower(name), "etcd") && !Contains(Lower(name), "postgres") && !Contains(Lower(name), "redis")
  {
    var n := Lower(name);
    if Contains(n, "mongo") then MongoDb
    else if Contains(n, "milvus") || Contains(n, "minio") || Contains(n, "etcd") then Milvus
    else if Contains(n, "postgres") then Postgres
    else if Contains(n, "redis") then Redis
    else Other
  }

  /** The chain decides exactly as the rule table read top to bottom. */
  lemma CategorizeFollowsRules(name: string)
    ensures Categorize(name) == FirstMatch(Rules, Lower(name))
  {
    var n := Lower(name);
    assert MatchesAny(n, ["mongo"]) <==> Contains(n, "mongo") by {
      if Contains(n, "mongo") { assert ["mongo"][0] == "mongo"; }
    }
    assert MatchesAny(n, ["milvus", "minio", "etcd"])
      <==> Contains(n, "milvus") || Contains(n, "minio") || Contains(n, "etcd") by {
      var ws := ["milvus", "minio", "etcd"];
      if Contains(n, "milvus") { assert Contains(n, ws[0]); }
      if Contains(n, "minio") { assert Contains(n, ws[1]); }
      if Contains(n, "etcd") { assert Contains(n, ws[2]); }
    }
    assert MatchesAny(n, ["postgres"]) <==> Contains(n, "postgres") by {
      if Contains(n, "postgres") { assert ["postgres"][0] == "postgres"; }
    }
    assert MatchesAny(n, ["redis"]) <==> Contains(n, "redis") by {
      if Contains(n, "redis") { assert ["redis"][0] == "redis"; }
    }
    assert Rules[1..][1..][1..][1..] == [];
  }

  /** The classification ignores ASCII case. */
  lemma CategorizeIgnoresCase(a: string, b: string)
    requires Lower(a) == Lower(b)
    ensures Categorize(a) == Categorize(b)
  {
  }

  /** One non-empty line: the name before the first `|`, the driver after it,
      `local` when there is no `|`. */
  function ParseVolumeLine(line: string): (v: VolumeInfo)
    ensures v.name == Split(line, '|')[0] && '|' !in v.name
    ensures '|' !in line ==> v.name == line && v.driver == "local"
    ensures v.category == Categorize(v.name)
  {
    var parts := Split(line, '|');
    assert '|' !in line ==> parts == [line] by {
      if '|' !in line { SplitWhole(line, '|'); }
    }
    var driver := if |parts| > 1 then parts[1] else "local";
    VolumeInfo(parts[0], driver, Categorize(parts[0]))
  }

  predicate NonEmpty(line: string) {
    line != ""
  }

  /** The loop over the lines: empty lines are skipped, each other line gives
      one record, in input order. */
  function ParseVolumeLines(lines: seq<string>): (vs: seq<VolumeInfo>)
    ensures |vs| == |Filter(lines, NonEmpty)|
    ensures forall i :: 0 <= i < |vs| ==> vs[i] == ParseVolumeLine(Filter(lines, NonEmpty)[i])
    decreases |lines|
  {
    if |lines| == 0 then []
    else if lines[0] == "" then ParseVolumeLines(lines[1..])
    else [ParseVolumeLine(lines[0])] + ParseVolumeLines(lines[1..])
  }

  /** `get_docker_volumes`: nothing when the command fails, else the records of
      the lines of the stripped output. */
  function GetDockerVolumes(code: int, stdout: string): (vs: seq<VolumeInfo>)
    ensures code != 0 ==> vs == []
    ensures code == 0 ==> |vs| == |Filter(Split(Strip(stdout), '\n'), NonEmpty)|
    ensures forall i :: 0 <= i < |vs| ==> vs[i].category == Categorize(vs[i].name)
  {
    if code != 0 then [] else ParseVolumeLines(Split(Strip(stdout), '\n'))
  }

  // ---------------------------------------------------------------------
  // The listing Docker prints, and reading it back
  // ---------------------------------------------------------------------

  /** A name or driver as Docker prints it: non-empty, no blanks, no `|`. */
  predicate Printable(w: string) {
    IsWord(w) && '|' !in w
  }

  function Line(p: (string, string)): string {
    p.0 + "|" + p.1
  }

  function Lines(ps: seq<(string, string)>): (ls: seq<string>)
    ensures |ls| == |ps|
    ensures forall i :: 0 <= i < |ps| ==> ls[i] == Line(ps[i])
  {
    seq(|ps|, i requires 0 <= i < |ps| => Line(ps[i]))
  }

  /** The command's standard output for volumes `ps`: one `name|driver` line each. */
  function Listing(ps: seq<(string, string)>): string {
    Join(Lines(ps), '\n') + "\n"
  }

  lemma ParseLine(p: (string, string))
    requires Printable(p.0) && Printable(p.1)
    ensures ParseVolumeLine(Line(p)) == VolumeInfo(p.0, p.1, Categorize(p.0))
  {
    SplitPiece(p.0, '|', p.1);
    SplitWhole(p.1, '|');
    assert Line(p) == p.0 + ['|'] + p.1;
  }

  lemma {:induction false} ParseLines(ps: seq<(string, string)>)
    requires forall i :: 0 <= i < |ps| ==> Printable(ps[i].0) && Printable(ps[i].1)
    ensures ParseVolumeLines(Lines(ps)) == seq(|ps|, i requires 0 <= i < |ps| => VolumeInfo(ps[i].0, ps[i].1, Categorize(ps[i].0)))
    decreases |ps|
  {
    if |ps| > 0 {
      ParseLine(ps[0]);
      ParseLines(ps[1..]);
      assert Lines(ps)[1..] == Lines(ps[1..]);
      assert Lines(ps)[0] != "";
    }
  }

  /** Joined lines of printable words have no blank at either end. */
  lemma {:induction false} JoinedLinesUnpadded(ps: seq<(string, string)>)
    requires |ps| > 0
    requires forall i :: 0 <= i < |ps| ==> Printable(ps[i].0) && Printable(ps[i].1)
    ensures var s := Join(Lines(ps), '\n');
      |s| > 0 && !IsSpace(s[0]) && !IsSpace(s[|s| - 1])
    decreases |ps|
  {
    var ls := Lines(ps);
    if |ps| == 1 {
      assert Join(ls, '\n') == ps[0].0 + "|" + ps[0].1;
    } else {
      JoinedLinesUnpadded(ps[1..]);
      assert ls[1..] == Lines(ps[1..]);
      assert Join(ls, '\n') == Line(ps[0]) + ['\n'] + Join(Lines(ps[1..]), '\n');
    }
  }

  /** Reading back Docker's listing of well-formed volumes gives each volume
      once, in order, with its own driver and category. */
  lemma ListingRoundTrip(ps: seq<(string, string)>)
    requires forall i :: 0 <= i < |ps| ==> Printable(ps[i].0) && Printable(ps[i].1)
    ensures GetDockerVolumes(0, Listing(ps))
      == seq(|ps|, i requires 0 <= i < |ps| => VolumeInfo(ps[i].0, ps[i].1, Categorize(ps[i].0)))
  {
    var body := Join(Lines(ps), '\n');
    if |ps| == 0 {
      StripUnpadded(body);
    } else {
      JoinedLinesUnpadded(ps);
      StripUnpadded(body);
      forall i | 0 <= i < |Lines(ps)| ensures '\n' !in Lines(ps)[i] {
        assert Lines(ps)[i] == ps[i].0 + "|" + ps[i].1;
        assert IsSpace('\n');
      }
      SplitJoin(Lines(ps), '\n');
      ParseLines(ps);
    }
  }
}
