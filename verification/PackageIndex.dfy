/**
 * Package IDs (ProcessInstalls.swift): each install location has an index file of the specs installed
 * there, and the position of a spec in it names the package's folder and module.
 */
module PackageIndex {
  import opened Text
  import opened Wrappers

  // The index file.

  /** `split(separator:)`, which omits empty pieces. */
  function NonEmpty(parts: seq<string>): seq<string> {
    if parts == [] then [] else (if parts[0] == "" then [] else [parts[0]]) + NonEmpty(parts[1..])
  }

  function ParseIndex(contents: string): seq<string> {
    NonEmpty(Split(contents, '\n'))
  }

  function WriteIndex(specs: seq<string>): string {
    if specs == [] then "" else specs[0] + "\n" + WriteIndex(specs[1..])
  }

  /** A spec that survives being a line of the file. */
  predicate Storable(spec: string) {
    spec != "" && '\n' !in spec
  }

  lemma {:induction false} NonEmptyAppend(a: seq<string>, b: seq<string>)
    ensures NonEmpty(a + b) == NonEmpty(a) + NonEmpty(b)
  {
    if a == [] {
      assert a + b == b;
    } else {
      var kept := if a[0] == "" then [] else [a[0]];
      assert NonEmpty(a + b) == kept + NonEmpty(a[1..] + b) by {
        assert (a + b)[0] == a[0] && (a + b)[1..] == a[1..] + b;
      }
      NonEmptyAppend(a[1..], b);
      assert kept + (NonEmpty(a[1..]) + NonEmpty(b)) == (kept + NonEmpty(a[1..])) + NonEmpty(b);
    }
  }

  lemma ParseLine(spec: string, rest: string)
    ensures ParseIndex(spec + "\n" + rest) == ParseIndex(spec) + ParseIndex(rest)
  {
    SplitAppend(spec, rest, '\n');
    NonEmptyAppend(Split(spec, '\n'), Split(rest, '\n'));
  }

  lemma ParseStorable(spec: string)
    requires Storable(spec)
    ensures ParseIndex(spec) == [spec]
  {
    SplitWhole(spec, '\n');
    assert [spec][1..] == [];
    assert NonEmpty([spec]) == [spec] + NonEmpty([]);
  }

  lemma {:induction false} ParsedIsStorable(parts: seq<string>)
    requires forall p :: p in parts ==> '\n' !in p
    ensures forall p :: p in NonEmpty(parts) ==> Storable(p)
  {
    if parts != [] {
      ParsedIsStorable(parts[1..]);
    }
  }

  lemma {:induction false} ParseWritten(specs: seq<string>)
    requires forall s :: s in specs ==> Storable(s)
    ensures ParseIndex(WriteIndex(specs)) == specs
  {
    if specs == [] {
      assert Split("", '\n') == [""];
      assert [""][1..] == [];
    } else {
      ParseLine(specs[0], WriteIndex(specs[1..]));
      ParseStorable(specs[0]);
      ParseWritten(specs[1..]);
    }
  }

  /** Reading back what was written gives it back exactly for lists of non-empty specs without newlines. */
  lemma IndexRoundTrip(specs: seq<string>)
    ensures ParseIndex(WriteIndex(specs)) == specs <==> forall s :: s in specs ==> Storable(s)
  {
    ParsedIsStorable(Split(WriteIndex(specs), '\n'));
    if forall s :: s in specs ==> Storable(s) {
      ParseWritten(specs);
    }
  }

  // What an install does to the files.

  function IndexPath(location: string): string {
    location + "/index"
  }

  /** The files on disk, and the install location chosen. */
  datatype Store = Store(disk: map<string, string>, location: string) {
    function Specs(at: string): seq<string> {
      if IndexPath(at) in disk then ParseIndex(disk[IndexPath(at)]) else []
    }
  }

  /** The last position of a spec in a list: what `map[spec] = i` over the list leaves. */
  function LastIndex(specs: seq<string>, spec: string): (i: nat)
    requires spec in specs
    ensures i < |specs| && specs[i] == spec && forall k :: i < k < |specs| ==> specs[k] != spec
  {
    if specs[|specs| - 1] == spec then |specs| - 1 else LastIndex(specs[..|specs| - 1], spec)
  }

  function IdOf(specs: seq<string>, spec: string): nat {
    if spec in specs then LastIndex(specs, spec) else |specs|
  }

  function Added(specs: seq<string>, spec: string): seq<string> {
    if spec in specs then specs else specs + [spec]
  }

  function Installed(s: Store, spec: string): Store {
    s.(disk := s.disk[IndexPath(s.location) := WriteIndex(Added(s.Specs(s.location), spec))])
  }

  lemma IndexPathInjective(a: string, b: string)
    ensures IndexPath(a) == IndexPath(b) ==> a == b
  {
    assert IndexPath(a)[..|IndexPath(a)| - 6] == a;
    assert IndexPath(b)[..|IndexPath(b)| - 6] == b;
  }

  /** The kernel's memory of one index, over the files. */
  class Installer {
    var loaded: bool                          // the three variables below are not nil
    var installedPackages: seq<string>
    var installedPackagesLocation: string
    var installedPackagesMap: map<string, nat>

    var store: Store
    var directories: set<string>

    ghost predicate Valid()
      reads this
    {
      && (loaded ==> exists location :: installedPackagesLocation == IndexPath(location))
      && (forall d :: d in directories ==> d !in store.disk)
      && (loaded ==> forall spec :: spec in installedPackages <==> spec in installedPackagesMap)
      && (loaded ==> forall spec :: spec in installedPackages ==>
            installedPackagesMap[spec] == LastIndex(installedPackages, spec))
    }

    constructor (location: string)
      ensures Valid() && store == Store(map[], location) && !loaded
    {
      loaded, installedPackages, installedPackagesLocation, installedPackagesMap := false, [], "", map[];
      store, directories := Store(map[], location), {};
    }

    /** A kernel restart forgets the memory and the location, not the files. */
    method Restart(location: string)
      requires Valid()
      modifies this
      ensures Valid() && store == old(store).(location := location)
    {
      loaded := false;
      store := store.(location := location);
    }

    /** `%install-location`. */
    method SetLocation(location: string)
      requires Valid()
      modifies this`store
      ensures Valid() && store == old(store).(location := location)
    {
      store := store.(location := location);
    }

    method ReadInstalledPackages()
      requires Valid()
      modifies this`loaded, this`installedPackages, this`installedPackagesLocation, this`installedPackagesMap
      ensures Valid() && loaded
      ensures installedPackagesLocation == IndexPath(store.location)
      ensures installedPackages == store.Specs(store.location)
    {
      loaded := true;
      installedPackages := [];
      installedPackagesLocation := IndexPath(store.location);
      installedPackagesMap := map[];
      if installedPackagesLocation in store.disk {
        var lines := ParseIndex(store.disk[installedPackagesLocation]);
        for i := 0 to |lines|
          invariant loaded && installedPackagesLocation == IndexPath(store.location)
          invariant installedPackages == lines[..i]
          invariant forall spec :: spec in installedPackages <==> spec in installedPackagesMap
          invariant forall spec :: spec in installedPackages ==>
            installedPackagesMap[spec] == LastIndex(installedPackages, spec)
        {
          Append(lines[i]);
        }
        assert lines[..|lines|] == lines;
      }
    }

    /** `installedPackages.append(spec)` and `installedPackagesMap[spec] = i` for the new position `i`. */
    method Append(spec: string)
      requires forall s :: s in installedPackages <==> s in installedPackagesMap
      requires forall s :: s in installedPackages ==> installedPackagesMap[s] == LastIndex(installedPackages, s)
      modifies this`installedPackages, this`installedPackagesMap
      ensures installedPackages == old(installedPackages) + [spec]
      ensures forall s :: s in installedPackages <==> s in installedPackagesMap
      ensures forall s :: s in installedPackages ==> installedPackagesMap[s] == LastIndex(installedPackages, s)
    {
      var i := |installedPackages|;
      installedPackages := installedPackages + [spec];
      installedPackagesMap := installedPackagesMap[spec := i];
      assert installedPackages[..i] == old(installedPackages);
    }

    /** `createFile` fails on a path that is a directory, and whenever the disk says so. */
    method WriteInstalledPackages(writable: bool) returns (ok: bool)
      requires Valid() && loaded
      modifies this`store
      ensures Valid()
      ensures ok == (writable && installedPackagesLocation !in directories)
      ensures store ==
        if ok then old(store).(disk := old(store).disk[installedPackagesLocation := WriteIndex(installedPackages)])
        else old(store)
    {
      var packagesString := "";
      var i := 0;
      while i < |installedPackages|
        invariant i <= |installedPackages|
        invariant packagesString + WriteIndex(installedPackages[i..]) == WriteIndex(installedPackages)
      {
        var line := installedPackages[i] + "\n";
        assert installedPackages[i..][1..] == installedPackages[i + 1..];
        ghost var rest := WriteIndex(installedPackages[i + 1..]);
        assert packagesString + (line + rest) == packagesString + line + rest;
        packagesString := packagesString + line;
        i := i + 1;
      }
      assert packagesString + "" == packagesString;
      ok := writable && installedPackagesLocation !in directories;
      if ok {
        store := store.(disk := store.disk[installedPackagesLocation := packagesString]);
      }
    }

    /**
     * The ID part of `processInstall`.  An install that gets an ID gets it from the index file as it is
     * now: what memory holds of an earlier location, or of a failed write, never reaches an ID that is used.
     */
    method ProcessInstall(spec: string, creatable: bool, writable: bool) returns (packageID: Option<nat>)
      requires Valid()
      modifies this
      ensures Valid()
      ensures packageID.Some? ==>
        && packageID.value == IdOf(old(store).Specs(old(store).location), spec)
        && store == Installed(old(store), spec)
      ensures packageID.None? ==> store == old(store)
      ensures packageID.Some? <==>
        && creatable && writable
        && store.location !in old(store).disk && IndexPath(store.location) !in old(directories)
        && !(old(loaded) && old(installedPackagesLocation) == store.location)
    {
      var location := store.location;
      if !creatable || location in store.disk {
        return None;   // the directory could not be created
      }
      directories := directories + {location};
      if !loaded || installedPackagesLocation != location {
        ReadInstalledPackages();
      }
      var id;
      if spec in installedPackagesMap {
        id := installedPackagesMap[spec];
      } else {
        id := |installedPackages|;
        Append(spec);
      }
      var ok := WriteInstalledPackages(writable);
      return if ok then Some(id) else None;
    }
  }

  // Whole runs.

  /** One thing that happens to the index files, over any number of kernels; failed installs change nothing. */
  datatype Event =
    | Install(spec: string) | FailedInstall(spec: string) | Choose(location: string) | Restarted(location: string)

  datatype Use = Use(location: string, spec: string, id: nat)

  datatype History = History(store: Store, uses: seq<Use>)

  function Next(h: History, e: Event): History {
    match e
    case Install(spec) =>
      var s := h.store;
      History(Installed(s, spec), h.uses + [Use(s.location, spec, IdOf(s.Specs(s.location), spec))])
    case FailedInstall(_) => h
    case Choose(location) => h.(store := h.store.(location := location))
    case Restarted(location) => h.(store := h.store.(location := location))
  }

  function After(start: string, events: seq<Event>): History {
    if events == [] then History(Store(map[], start), [])
    else Next(After(start, events[..|events| - 1]), events[|events| - 1])
  }

  predicate Distinct(specs: seq<string>) {
    forall i, j :: 0 <= i < j < |specs| ==> specs[i] != specs[j]
  }

  /** Every ID used names the spec at that position of the location's index, and every position has been used. */
  ghost predicate Faithful(h: History) {
    && (forall l :: Distinct(h.store.Specs(l)) && forall spec :: spec in h.store.Specs(l) ==> Storable(spec))
    && (forall u :: u in h.uses ==> u.id < |h.store.Specs(u.location)| && h.store.Specs(u.location)[u.id] == u.spec)
    && (forall l, i :: 0 <= i < |h.store.Specs(l)| ==> Use(l, h.store.Specs(l)[i], i) in h.uses)
  }

  lemma InstallUpdatesOneIndex(s: Store, spec: string)
    requires Storable(spec) && forall p :: p in s.Specs(s.location) ==> Storable(p)
    ensures Installed(s, spec).Specs(s.location) == Added(s.Specs(s.location), spec)
    ensures forall l :: l != s.location ==> Installed(s, spec).Specs(l) == s.Specs(l)
  {
    ParseWritten(Added(s.Specs(s.location), spec));
    forall l | l != s.location ensures Installed(s, spec).Specs(l) == s.Specs(l) {
      IndexPathInjective(l, s.location);
    }
  }

  lemma InstallIsFaithful(h: History, spec: string)
    requires Faithful(h) && Storable(spec)
    ensures Faithful(Next(h, Install(spec)))
  {
    var h', here := Next(h, Install(spec)), h.store.location;
    var before, after := h.store.Specs(here), h'.store.Specs(here);
    InstallUpdatesOneIndex(h.store, spec);
    assert before <= after && Distinct(after);
    forall u | u in h'.uses ensures u.id < |h'.store.Specs(u.location)| && h'.store.Specs(u.location)[u.id] == u.spec {
      if u in h.uses {
        assert u.location == here ==> h.store.Specs(u.location) <= h'.store.Specs(u.location);
      }
    }
    forall l, i | 0 <= i < |h'.store.Specs(l)| ensures Use(l, h'.store.Specs(l)[i], i) in h'.uses {
      if l == here && i < |before| {
        assert Use(l, before[i], i) in h.uses;
      }
    }
  }

  lemma {:induction false} RunIsFaithful(start: string, events: seq<Event>)
    requires forall e :: e in events && e.Install? ==> Storable(e.spec)
    ensures Faithful(After(start, events))
  {
    if events != [] {
      var n := |events| - 1;
      RunIsFaithful(start, events[..n]);
      assert events[n] in events;
      match events[n]
      case Install(spec) => InstallIsFaithful(After(start, events[..n]), spec);
      case _ =>
        var h := After(start, events[..n]);
        assert forall l :: After(start, events).store.Specs(l) == h.store.Specs(l);
    }
  }

  predicate Stable(uses: seq<Use>) {
    forall u, v :: u in uses && v in uses && u.location == v.location ==> (u.spec == v.spec <==> u.id == v.id)
  }

  ghost predicate IsUsed(uses: seq<Use>, location: string, id: nat) {
    exists u :: u in uses && u.location == location && u.id == id
  }

  /**
   * Over any sequence of installs, failures, location changes and restarts: a spec keeps its ID at its
   * location for ever, two specs at one location never share one, and the IDs used there have no gaps.
   */
  lemma IdsAreForEver(start: string, events: seq<Event>)
    requires forall e :: e in events && e.Install? ==> Storable(e.spec)
    ensures var uses := After(start, events).uses;
      Stable(uses) && forall u :: u in uses ==> forall i: nat :: i < u.id ==> IsUsed(uses, u.location, i)
  {
    RunIsFaithful(start, events);
    var h := After(start, events);
    forall u | u in h.uses ensures forall i: nat :: i < u.id ==> IsUsed(h.uses, u.location, i) {
      forall i: nat | i < u.id ensures IsUsed(h.uses, u.location, i) {
        assert Use(u.location, h.store.Specs(u.location)[i], i) in h.uses;
      }
    }
  }

  /** Runs in which the only spec that may not survive the index file is this one. */
  ghost predicate Mixes(events: seq<Event>, spec: string) {
    forall e :: e in events && e.Install? ==> e.spec == spec || Storable(e.spec)
  }

  /** What a new index holds, as read back, after its first spec. */
  lemma FirstSpecStored(start: string, first: string)
    ensures Installed(Store(map[], start), first).Specs(start) == ParseIndex(first)
  {
    assert Added([], first) == [first];
    assert [first][1..] == [];
    assert WriteIndex([first]) == first + "\n" + "";
    ParseLine(first, "");
    assert ParseIndex("") == [] by { assert [""][1..] == []; }
  }

  lemma AfterOne(start: string, e: Event)
    ensures After(start, [e]) == Next(History(Store(map[], start), []), e)
  {
    assert [e][..0] == [];
  }

  lemma AfterTwo(start: string, e: Event, f: Event)
    ensures After(start, [e, f]) == Next(After(start, [e]), f)
  {
    assert [e, f][..1] == [e];
  }

  lemma TwoInstalls(start: string, first: string, second: string)
    ensures After(start, [Install(first), Install(second)]).uses ==
            [Use(start, first, 0), Use(start, second, IdOf(ParseIndex(first), second))]
  {
    AfterOne(start, Install(first));
    AfterTwo(start, Install(first), Install(second));
    FirstSpecStored(start, first);
  }

  lemma SecondInstallBreaks(spec: string, second: string, known: seq<string>, start: string)
    requires spec !in known && second == (if known == [] then "a" else spec) && spec != "a"
    ensures !Stable([Use(start, spec, 0), Use(start, second, IdOf(known, second))])
  {
    var u, v := Use(start, spec, 0), Use(start, second, IdOf(known, second));
    assert [u, v][0] == u && [u, v][1] == v;
    assert u in [u, v] && v in [u, v];
  }

  ghost predicate StableRun(start: string, events: seq<Event>) {
    Stable(After(start, events).uses)
  }

  lemma MixesTwo(spec: string, second: string)
    requires second == spec || second == "a"
    ensures Mixes([Install(spec), Install(second)], spec)
  {
  }

  lemma NotReadBack(spec: string)
    requires !Storable(spec)
    ensures spec !in ParseIndex(spec) && spec != "a"
  {
    ParsedIsStorable(Split(spec, '\n'));
  }

  lemma UnstorableSpecBreaks(start: string, spec: string) returns (events: seq<Event>)
    requires !Storable(spec)
    ensures Mixes(events, spec) && !StableRun(start, events)
  {
    var second := if ParseIndex(spec) == [] then "a" else spec;
    events := [Install(spec), Install(second)];
    NotReadBack(spec);
    MixesTwo(spec, second);
    TwoInstalls(start, spec, second);
    SecondInstallBreaks(spec, second, ParseIndex(spec), start);
  }

  /**
   * The condition is exact: whatever the other specs, IDs are stable in every run that installs a spec if
   * and only if that spec is non-empty and has no newline.  An empty spec, say, shares its ID with the next.
   */
  lemma StableExactlyForStorable(start: string, spec: string)
    ensures (forall events :: Mixes(events, spec) ==> StableRun(start, events)) <==> Storable(spec)
  {
    if Storable(spec) {
      forall events | Mixes(events, spec) ensures StableRun(start, events) {
        IdsAreForEver(start, events);
      }
    } else {
      var events := UnstorableSpecBreaks(start, spec);
    }
  }
}
