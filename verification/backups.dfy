/** `get_backups_list` and the backup figures of `get_system_status`
    (backend/main.py): the global backups are the manifests named
    `backup_global_<timestamp>.json` in the backup directory, newest first.
    Listing the directory and reading the JSON are outside the model: the
    directory's entries, with their parsed content, are a parameter. */
module Backups {
  import opened Wrappers
  import opened Seqs
  import opened Text
  import opened Ordering

  const GlobalPrefix: string := "backup_global_"
  const JsonSuffix: string := ".json"

  /** A parsed JSON value. The listing never looks inside a component's
      description, so its values stay as JSON. */
  datatype Json =
    | JNull
    | JBool(b: bool)
    | JNumber(n: int)
    | JString(s: string)
    | JArray(items: seq<Json>)
    | JObject(fields: map<string, Json>)

  /** The two keys of a manifest the listing reads: `None` when the key is
      absent, otherwise its JSON value, `null` included. */
  datatype Manifest = Manifest(backupDateLocal: Option<Json>, components: Option<Json>)

  /** A file of the backup directory, with its parsed manifest, or `None` when
      opening or parsing it raises or its top level is not an object, so that
      `data.get` raises; the listing skips all of these. */
  datatype DirEntry = DirEntry(name: string, manifest: Option<Manifest>)

  /** `BackupInfo`; `components` is `None` for a manifest holding
      `"components": null`, which the optional field accepts. */
  datatype BackupInfo = BackupInfo(
    timestamp: string,
    backupType: string,
    path: string,
    date: string,
    components: Option<map<string, Json>>)

  /** The `date` field built from `data.get("backup_date_local", "")`: an
      absent key gives the empty string, a string is kept, and anything else,
      `null` included, fails validation of the `str` field. */
  function DateOf(v: Option<Json>): (r: Option<string>)
    ensures v.None? ==> r == Some("")
    ensures v.Some? ==> (r.Some? <==> v.value.JString?)
    ensures v.Some? && r.Some? ==> r.value == v.value.s
  {
    match v
    case None => Some("")
    case Some(JString(d)) => Some(d)
    case Some(_) => None
  }

  /** The `components` field built from `data.get("components", {})`: `None`
      when validation of the optional dictionary field fails, otherwise the
      field's value. An absent key gives the empty dictionary, `null` gives no
      dictionary, and an object gives itself. */
  function ComponentsOf(v: Option<Json>): (r: Option<Option<map<string, Json>>>)
    ensures r.Some? <==> v.None? || v.value.JNull? || v.value.JObject?
    ensures r == Some(None) <==> v == Some(JNull)
    ensures v.None? ==> r == Some(Some(map[]))
    ensures v.Some? && v.value.JObject? ==> r == Some(Some(v.value.fields))
  {
    match v
    case None => Some(Some(map[]))
    case Some(JNull) => Some(None)
    case Some(JObject(m)) => Some(Some(m))
    case Some(_) => None
  }

  /** The manifest passes validation of `BackupInfo`. */
  predicate Validates(m: Manifest) {
    DateOf(m.backupDateLocal).Some? && ComponentsOf(m.components).Some?
  }

  /** The glob `backup_global_*.json`. */
  predicate MatchesGlob(name: string) {
    |name| >= |GlobalPrefix| + |JsonSuffix| && IsPrefix(GlobalPrefix, name) && IsSuffix(JsonSuffix, name)
  }

  /** `Path.stem` of a `.json` file: the name without its extension. */
  function Stem(name: string): string
    requires IsSuffix(JsonSuffix, name)
  {
    name[..|name| - |JsonSuffix|]
  }

  /** `stem.replace("backup_global_", "")`: every occurrence goes, not just the leading one. */
  function TimestampOf(name: string): string
    requires MatchesGlob(name)
  {
    ReplaceAll(Stem(name), GlobalPrefix, "")
  }

  /** A manifest named for a timestamp that does not itself contain the prefix
      yields that timestamp. */
  lemma TimestampRoundTrip(t: string)
    requires !Contains(t, GlobalPrefix)
    ensures MatchesGlob(GlobalPrefix + t + JsonSuffix)
    ensures TimestampOf(GlobalPrefix + t + JsonSuffix) == t
  {
    var name := GlobalPrefix + t + JsonSuffix;
    assert name[..|GlobalPrefix|] == GlobalPrefix;
    assert name[|name| - |JsonSuffix|..] == JsonSuffix;
    assert Stem(name) == GlobalPrefix + t;
    ReplaceAllLeading(GlobalPrefix, t);
    ReplaceAllAbsent(t, GlobalPrefix, "");
  }

  /** The entry yields a record: its name matches, its manifest reads and
      the record validates. */
  predicate Listed(e: DirEntry) {
    MatchesGlob(e.name) && e.manifest.Some? && Validates(e.manifest.value)
  }

  /** `str(Path(base) / name)` for a base directory in normal form apart
      from trailing slashes, which `Path` drops; an empty base is the current
      directory, which `str` leaves out. */
  function JoinPath(base: string, name: string): (p: string)
    ensures base == "" ==> p == name
    ensures base != "" ==> IsSuffix("/" + name, p) && IsPrefix(p[..|p| - |name| - 1], base)
    ensures base != "" && base[|base| - 1] != '/' ==> p == base + "/" + name
    decreases |base|
  {
    if base == "" then name
    else if base[|base| - 1] != '/' then base + "/" + name
    else if |base| == 1 then "/" + name
    else
      var p := JoinPath(base[..|base| - 1], name);
      assert p[..|p| - |name| - 1] == base[..|p| - |name| - 1];
      p
  }

  function InfoOf(base: string, e: DirEntry): BackupInfo
    requires Listed(e)
  {
    var m := e.manifest.value;
    BackupInfo(TimestampOf(e.name), "global", JoinPath(base, e.name),
      DateOf(m.backupDateLocal).value, ComponentsOf(m.components).value)
  }

  /** The loop over the glob: one record per matching, readable file, in
      directory order; unreadable files are skipped. */
  function Collect(base: string, es: seq<DirEntry>): (r: seq<BackupInfo>)
    ensures |r| <= |es|
    decreases |es|
  {
    if |es| == 0 then []
    else if Listed(es[0]) then [InfoOf(base, es[0])] + Collect(base, es[1..])
    else Collect(base, es[1..])
  }

  lemma {:induction false} CollectMembers(base: string, es: seq<DirEntry>, b: BackupInfo)
    ensures b in Collect(base, es) <==> exists e :: e in es && Listed(e) && b == InfoOf(base, e)
    decreases |es|
  {
    if |es| > 0 {
      CollectMembers(base, es[1..], b);
      assert forall e :: e in es <==> e == es[0] || e in es[1..];
    }
  }

  function TimestampKey(b: BackupInfo): string {
    b.timestamp
  }

  /** `get_backups_list`: nothing when the directory is missing; otherwise
      the collected records sorted by timestamp, newest first. */
  function GetBackupsList(baseExists: bool, base: string, es: seq<DirEntry>): (r: seq<BackupInfo>)
    ensures !baseExists ==> r == []
    ensures baseExists ==> multiset(r) == multiset(Collect(base, es))
    ensures SortedBy(r, TimestampKey, true)
  {
    if !baseExists then [] else SortBy(Collect(base, es), TimestampKey, true)
  }

  /** Every readable manifest is listed, and nothing else is. */
  lemma BackupsListComplete(base: string, es: seq<DirEntry>, b: BackupInfo)
    ensures b in GetBackupsList(true, base, es) <==> exists e :: e in es && Listed(e) && b == InfoOf(base, e)
  {
    var r := GetBackupsList(true, base, es);
    assert b in r <==> b in multiset(r);
    assert b in Collect(base, es) <==> b in multiset(Collect(base, es));
    CollectMembers(base, es, b);
  }

  /** A manifest holding `"components": null` is listed, with no components,
      and counts towards the total. */
  lemma NullComponentsListed(base: string, es: seq<DirEntry>, e: DirEntry)
    requires e in es && MatchesGlob(e.name) && e.manifest.Some?
    requires DateOf(e.manifest.value.backupDateLocal).Some? && e.manifest.value.components == Some(JNull)
    ensures exists b :: b in GetBackupsList(true, base, es) && b.components.None? && b.timestamp == TimestampOf(e.name)
    ensures |GetBackupsList(true, base, es)| > 0
  {
    BackupsListComplete(base, es, InfoOf(base, e));
  }

  /** The backup figures of the system status: how many backups are listed
      and the timestamp of the first. */
  datatype BackupSummary = BackupSummary(totalBackups: int, lastBackup: Option<string>)

  function Summarize(backups: seq<BackupInfo>): (s: BackupSummary)
    ensures s.totalBackups == |backups|
    ensures s.lastBackup.None? <==> |backups| == 0
  {
    BackupSummary(|backups|, if |backups| > 0 then Some(backups[0].timestamp) else None)
  }

  /** A list sorted newest first starts with its greatest timestamp. */
  lemma LatestFirst(listed: seq<BackupInfo>)
    requires SortedBy(listed, TimestampKey, true) && |listed| > 0
    ensures forall i :: 0 <= i < |listed| ==> StrLe(listed[i].timestamp, listed[0].timestamp)
  {
    forall i | 0 <= i < |listed| ensures StrLe(listed[i].timestamp, listed[0].timestamp) {
      if i == 0 {
        StrLeRefl(listed[0].timestamp);
      } else {
        assert InOrder(listed[0], listed[i], TimestampKey, true);
      }
    }
  }

  /** `get_system_status`: backups are only listed when the share is mounted;
      then the total is the number of listed backups and the last backup is
      the greatest listed timestamp. */
  function SystemBackups(mounted: bool, baseExists: bool, base: string, es: seq<DirEntry>): (s: BackupSummary)
    ensures !mounted ==> s == BackupSummary(0, None)
    ensures mounted ==> s.totalBackups == |GetBackupsList(baseExists, base, es)|
    ensures mounted ==> (s.lastBackup.None? <==> |GetBackupsList(baseExists, base, es)| == 0)
    ensures mounted && s.lastBackup.Some? ==>
      var listed := GetBackupsList(baseExists, base, es);
      s.lastBackup.value == listed[0].timestamp
      && forall i :: 0 <= i < |listed| ==> StrLe(listed[i].timestamp, s.lastBackup.value)
  {
    var listed := if mounted then GetBackupsList(baseExists, base, es) else [];
    if |listed| > 0 then
      LatestFirst(listed);
      Summarize(listed)
    else Summarize(listed)
  }
}
