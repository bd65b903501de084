/**
 * The toolchain cache of install_swift.sh: one active toolchain, a folder of the others, a record of which
 * is active, and stamps of the version that the two native libraries were last compiled with.
 */
module Toolchain {
  import opened Wrappers

  /** A version as the script's argument spells it; empty when there is none. */
  type Version = string

  datatype Exit = Completed | UnexpectedToolchain | MissingToolchain

  /** What a folder really holds: a toolchain, or other folders under their names. */
  datatype Folder = Toolchain(version: Version) | Collection(folders: map<string, Folder>)

  /** The two folders of the cache, and the files under `progress`. */
  datatype Machine = Machine(
    active: Option<Folder>,               // "toolchain"
    toolchains: Option<Folder>,           // "toolchains"
    buried: seq<Folder>,                  // moved inside a folder that was already there
    recorded: Option<Version>,            // "progress/swift-version"
    lldbStamp: Option<Version>,           // "progress/lldb-compiler-version"
    kernelStamp: Option<Version>,         // "progress/jupyterkernel-compiler-version"
    downloads: seq<Version>)              // every successful download
  {
    /** The folders inside "toolchains". */
    function Stored(): map<string, Folder> {
      if toolchains.Some? && toolchains.value.Collection? then toolchains.value.folders else map[]
    }

    /** `-d "toolchains/$v"`; without a version this is "toolchains/" itself. */
    predicate HasFolder(v: Version) {
      if v == "" then toolchains.Some? else v in Stored()
    }
  }

  const FRESH: Machine := Machine(None, Some(Collection(map[])), [], None, None, None, [])

  /** The name under which `mv toolchain "toolchains/$v"` puts the folder. */
  function NameIn(v: Version): string {
    if v == "" then "toolchain" else v
  }

  /**
   * `mv toolchain "toolchains/$v"`. Without a source, or without the folder to move into, nothing happens; a folder of
   * that name takes the moved one inside; and "toolchains/", when it does not exist, is just a new name.
   */
  function MoveAway(m: Machine, v: Version): Machine {
    if m.active.None? then m
    else if m.toolchains.None? then (if v == "" then m.(active := None, toolchains := m.active) else m)
    else if m.toolchains.value.Toolchain? || NameIn(v) in m.Stored() then
      m.(active := None, buried := m.buried + [m.active.value])
    else m.(active := None, toolchains := Some(Collection(m.Stored()[NameIn(v) := m.active.value])))
  }

  /** `mv "toolchains/$v" toolchain`. */
  function MoveBack(m: Machine, v: Version): Machine
    requires m.HasFolder(v)
  {
    var moved := if v == "" then m.toolchains.value else m.Stored()[v];
    var rest := m.(toolchains := if v == "" then None else Some(Collection(m.Stored() - {v})));
    if m.active.Some? then rest.(buried := m.buried + [moved]) else rest.(active := Some(moved))
  }

  function Stamped(m: Machine, version: Version): Machine {
    m.(lldbStamp := Some(version), kernelStamp := Some(version))
  }

  /** The run with a folder of the version asked for, and the run that has to download. */
  function Cached(m: Machine, version: Version): (Machine, Exit) {
    if m.active.None? then (m, MissingToolchain) else (Stamped(m, version), Completed)
  }

  function Downloading(m: Machine, version: Version, downloaded: bool): (Machine, Exit) {
    if m.active.Some? then (m, UnexpectedToolchain)
    else
      var fetched :=
        if downloaded then m.(active := Some(Toolchain(version)), downloads := m.downloads + [version]) else m;
      (Stamped(fetched.(recorded := Some(version)), version), Completed)
  }

  /** What one run of the script does, with the download it may need succeeding or not. */
  function Next(m: Machine, version: Version, downloaded: bool): (Machine, Exit) {
    if m.recorded.None? then Downloading(m, version, downloaded)
    else
      var recorded := m.recorded.value;
      if version == recorded then Cached(m, version)
      else
        var away := MoveAway(m, recorded);
        if m.HasFolder(version) then
          Cached((if away.HasFolder(version) then MoveBack(away, version) else away).(recorded := Some(version)), version)
        else Downloading(away, version, downloaded)
  }

  /** The script, command by command, on one machine. */
  class Installer {
    var active: Option<Folder>
    var toolchains: Option<Folder>
    var buried: seq<Folder>
    var recorded: Option<Version>
    var lldbStamp: Option<Version>
    var kernelStamp: Option<Version>
    var downloads: seq<Version>

    /** The versions that each library was compiled for, one entry for each compilation. */
    var lldbBuilds: seq<Version>
    var kernelBuilds: seq<Version>

    function State(): Machine
      reads this
    {
      Machine(active, toolchains, buried, recorded, lldbStamp, kernelStamp, downloads)
    }

    constructor ()
      ensures State() == FRESH && lldbBuilds == [] && kernelBuilds == []
    {
      active, toolchains, buried, recorded := None, Some(Collection(map[])), [], None;
      lldbStamp, kernelStamp, downloads, lldbBuilds, kernelBuilds := None, None, [], [], [];
    }

    method MoveToolchainAway(v: Version)
      modifies this`active, this`toolchains, this`buried
      ensures State() == MoveAway(old(State()), v)
    {
      if active.Some? {
        if toolchains.None? {
          if v == "" {
            toolchains, active := active, None;
          }
        } else if toolchains.value.Toolchain? || NameIn(v) in toolchains.value.folders {
          buried, active := buried + [active.value], None;
        } else {
          toolchains := Some(Collection(toolchains.value.folders[NameIn(v) := active.value]));
          active := None;
        }
      }
    }

    method MoveToolchainBack(v: Version)
      requires State().HasFolder(v)
      modifies this`active, this`toolchains, this`buried
      ensures State() == MoveBack(old(State()), v)
    {
      var moved;
      if v == "" {
        moved, toolchains := toolchains.value, None;
      } else {
        moved := toolchains.value.folders[v];
        toolchains := Some(Collection(toolchains.value.folders - {v}));
      }
      if active.Some? {
        buried := buried + [moved];
      } else {
        active := Some(moved);
      }
    }

    /** A library is compiled exactly when its stamp is not the version asked for. */
    method Compile(version: Version)
      modifies this`lldbStamp, this`kernelStamp, this`lldbBuilds, this`kernelBuilds
      ensures State() == Stamped(old(State()), version)
      ensures lldbBuilds == old(lldbBuilds) + if old(lldbStamp) == Some(version) then [] else [version]
      ensures kernelBuilds == old(kernelBuilds) + if old(kernelStamp) == Some(version) then [] else [version]
    {
      if lldbStamp.None? || version != lldbStamp.value {
        lldbBuilds := lldbBuilds + [version];
        lldbStamp := Some(version);
      }
      if kernelStamp.None? || version != kernelStamp.value {
        kernelBuilds := kernelBuilds + [version];
        kernelStamp := Some(version);
      }
    }

    /** Lines 48 to 64: is there a cached toolchain, and where does it have to go. */
    method ReuseCachedFiles(version: Version) returns (usingCachedSwift: bool)
      modifies this`active, this`toolchains, this`buried, this`recorded
      ensures var m := old(State());
        if m.recorded.None? then !usingCachedSwift && State() == m
        else if version == m.recorded.value then usingCachedSwift && State() == m
        else
          var away := MoveAway(m, m.recorded.value);
          && usingCachedSwift == m.HasFolder(version)
          && State() == if !usingCachedSwift then away
             else (if away.HasFolder(version) then MoveBack(away, version) else away).(recorded := Some(version))
    {
      if recorded.None? {
        return false;
      }
      var oldVersion := recorded.value;
      if version == oldVersion {
        return true;
      }
      usingCachedSwift := State().HasFolder(version);
      MoveToolchainAway(oldVersion);
      if usingCachedSwift {
        if State().HasFolder(version) {
          MoveToolchainBack(version);
        }
        recorded := Some(version);
      }
    }

    method Install(version: Version, downloaded: bool) returns (exit: Exit)
      modifies this
      ensures (State(), exit) == Next(old(State()), version, downloaded)
      ensures exit.Completed? ==>
        && lldbBuilds == old(lldbBuilds) + (if old(lldbStamp) == Some(version) then [] else [version])
        && kernelBuilds == old(kernelBuilds) + (if old(kernelStamp) == Some(version) then [] else [version])
      ensures !exit.Completed? ==> lldbBuilds == old(lldbBuilds) && kernelBuilds == old(kernelBuilds)
    {
      var usingCachedSwift := ReuseCachedFiles(version);
      if !usingCachedSwift && active.Some? {
        return UnexpectedToolchain;
      }
      if usingCachedSwift && active.None? {
        return MissingToolchain;
      }
      if !usingCachedSwift {
        if downloaded {
          active := Some(Toolchain(version));
          downloads := downloads + [version];
        }
        recorded := Some(version);
      }
      Compile(version);
      return Completed;
    }
  }

  // Whole histories.

  datatype Request = Request(version: Version, downloaded: bool)

  function After(requests: seq<Request>): Machine {
    if requests == [] then FRESH
    else
      var r := requests[|requests| - 1];
      Next(After(requests[..|requests| - 1]), r.version, r.downloaded).0
  }

  predicate Distinct(vs: seq<Version>) {
    forall i, j :: 0 <= i < j < |vs| ==> vs[i] != vs[j]
  }

  /** These folders are toolchains, each under its own name. */
  predicate Named(folders: map<string, Folder>) {
    forall v :: v in folders ==> folders[v] == Toolchain(v)
  }

  /** Every toolchain ever downloaded is in exactly one place, under its own name. */
  ghost predicate Inv(m: Machine) {
    && m.buried == [] && m.toolchains == Some(Collection(m.Stored())) && Named(m.Stored())
    && (m.active.Some? ==> m.recorded.Some? && m.active.value == Toolchain(m.recorded.value))
    && (m.recorded.Some? ==> m.recorded.value !in m.Stored() && m.recorded.value != "")
    && (m.recorded.None? ==> m.Stored() == map[])
    && Distinct(m.downloads)
    && forall v :: v in m.downloads <==> v in m.Stored() || m.active == Some(Toolchain(v))
  }

  lemma AwayKeeps(m: Machine)
    requires Inv(m) && m.recorded.Some?
    ensures var away := MoveAway(m, m.recorded.value);
      && away.active.None? && away.buried == [] && away.downloads == m.downloads && away.recorded == m.recorded
      && away.toolchains == Some(Collection(away.Stored())) && Named(away.Stored())
      && (forall v :: v in m.downloads <==> v in away.Stored())
      && (forall v :: v != m.recorded.value ==> (v in away.Stored() <==> v in m.Stored()))
      && (m.recorded.value in away.Stored() <==> m.active.Some?)
  {
  }

  /** What a run promises: the cache is in order, and unless the toolchain is missing, version, record and stamps agree. */
  ghost predicate RunsWell(m: Machine, m': Machine, exit: Exit, version: Version, downloaded: bool) {
    && Inv(m')
    && exit != UnexpectedToolchain
    && (exit.MissingToolchain? <==> m.recorded == Some(version) && m.active.None?)
    && (exit.MissingToolchain? ==> m' == m)
    && (exit.Completed? ==>
          && m'.recorded == m'.lldbStamp == m'.kernelStamp == Some(version)
          && (m'.active == Some(Toolchain(version)) || (m'.active.None? && !downloaded && version !in m.downloads))
          && m.downloads <= m'.downloads
          && (m'.downloads != m.downloads ==> version !in m.downloads))
  }

  lemma SwapRunsWell(m: Machine, version: Version, downloaded: bool)
    requires Inv(m) && version != "" && m.recorded.Some? && version != m.recorded.value && m.HasFolder(version)
    ensures RunsWell(m, Next(m, version, downloaded).0, Next(m, version, downloaded).1, version, downloaded)
  {
    AwayKeeps(m);
  }

  lemma DownloadRunsWell(m: Machine, version: Version, downloaded: bool)
    requires Inv(m) && version != "" && (m.recorded.Some? ==> version != m.recorded.value && !m.HasFolder(version))
    ensures RunsWell(m, Next(m, version, downloaded).0, Next(m, version, downloaded).1, version, downloaded)
  {
    if m.recorded.Some? {
      AwayKeeps(m);
    }
  }

  lemma RunKeepsInv(m: Machine, version: Version, downloaded: bool)
    requires Inv(m) && version != ""
    ensures RunsWell(m, Next(m, version, downloaded).0, Next(m, version, downloaded).1, version, downloaded)
  {
    if m.recorded.None? || (version != m.recorded.value && !m.HasFolder(version)) {
      DownloadRunsWell(m, version, downloaded);
    } else if version != m.recorded.value {
      SwapRunsWell(m, version, downloaded);
    }
  }

  lemma {:induction false} HistoryInv(requests: seq<Request>)
    requires forall r :: r in requests ==> r.version != ""
    ensures Inv(After(requests))
  {
    if requests != [] {
      var n := |requests| - 1;
      HistoryInv(requests[..n]);
      assert requests[n] in requests;
      RunKeepsInv(After(requests[..n]), requests[n].version, requests[n].downloaded);
    }
  }

  /**
   * After any history of runs, whichever downloads failed: the active folder holds the recorded version or
   * nothing, the other folders hold exactly the other versions ever downloaded, each under its own name,
   * and nothing was overwritten or downloaded twice.
   */
  lemma NothingIsLost(requests: seq<Request>)
    requires forall r :: r in requests ==> r.version != ""
    ensures var m := After(requests);
      && (m.active.None? || (m.recorded.Some? && m.active.value == Toolchain(m.recorded.value)))
      && (forall v :: v in m.Stored() ==> m.Stored()[v] == Toolchain(v) && m.active != Some(Toolchain(v)))
      && (forall v :: v in m.downloads <==> v in m.Stored() || m.active == Some(Toolchain(v)))
      && Distinct(m.downloads) && m.buried == []
  {
    HistoryInv(requests);
  }

  /**
   * The first sanity check never fails.  The second fails exactly when the version asked for is the one
   * recorded and has never been downloaded; without failed downloads neither ever does.
   */
  lemma SanityExits(requests: seq<Request>, version: Version, downloaded: bool)
    requires version != "" && forall r :: r in requests ==> r.version != ""
    ensures var m := After(requests); var exit := Next(m, version, downloaded).1;
      && exit != UnexpectedToolchain
      && (exit.MissingToolchain? <==> m.recorded == Some(version) && version !in m.downloads)
      && ((forall r :: r in requests ==> r.downloaded) ==> exit.Completed?)
  {
    HistoryInv(requests);
    RunKeepsInv(After(requests), version, downloaded);
    if forall r :: r in requests ==> r.downloaded {
      DownloadedIsActive(requests);
    }
  }

  lemma {:induction false} DownloadedIsActive(requests: seq<Request>)
    requires forall r :: r in requests ==> r.version != "" && r.downloaded
    ensures var m := After(requests);
      && m.recorded == m.lldbStamp == m.kernelStamp
      && m.recorded == (if requests == [] then None else Some(requests[|requests| - 1].version))
      && m.active == (if requests == [] then None else Some(Toolchain(requests[|requests| - 1].version)))
  {
    if requests != [] {
      var n := |requests| - 1;
      DownloadedIsActive(requests[..n]);
      HistoryInv(requests[..n]);
      assert requests[n] in requests;
      RunKeepsInv(After(requests[..n]), requests[n].version, requests[n].downloaded);
    }
  }

  // Runs without an argument.

  /**
   * Without an argument, exactly on a machine that has installed before, the script moves the active toolchain into the
   * collection and then the collection into its place: no "toolchains" is left, the active folder holds no toolchain of
   * its own but, in it, every one ever downloaded, and record and stamps are empty.
   */
  lemma NoArgumentMisplaces(requests: seq<Request>, downloaded: bool)
    requires forall r :: r in requests ==> r.version != ""
    ensures var (m, m') := (After(requests), Next(After(requests), "", downloaded).0);
      && (m'.toolchains.None? <==> requests != [])
      && (requests != [] ==>
            && m'.active.Some? && m'.active.value.Collection? && Named(m'.active.value.folders)
            && (forall v :: v in m.downloads <==> v in m'.active.value.folders)
            && m'.recorded == m'.lldbStamp == m'.kernelStamp == Some("") && m'.downloads == m.downloads)
  {
    HistoryInv(requests);
    AlwaysRecorded(requests);
    if requests != [] {
      AwayKeeps(After(requests));
    }
  }

  /**
   * The next run with an argument puts the collection back, but has not looked into it: it downloads its version again
   * if it was there. So the cache is as it should be if and only if that version had never been downloaded.
   */
  lemma NextRunForgets(requests: seq<Request>, attempt: bool, version: Version)
    requires requests != [] && version != "" && forall r :: r in requests ==> r.version != ""
    ensures var m := After(requests);
      var (m', exit) := Next(Next(m, "", attempt).0, version, true);
      && exit == Completed && m'.active == Some(Toolchain(version)) && m'.downloads == m.downloads + [version]
      && (forall v :: v in m.downloads <==> v in m'.Stored()) && Named(m'.Stored())
      && (Inv(m') <==> version !in m.downloads)
  {
    HistoryInv(requests);
    AlwaysRecorded(requests);
    AwayKeeps(After(requests));
    NoArgumentMisplaces(requests, attempt);
  }

  lemma {:induction false} AlwaysRecorded(requests: seq<Request>)
    ensures After(requests).recorded.Some? <==> requests != []
  {
    if requests != [] {
      AlwaysRecorded(requests[..|requests| - 1]);
      if requests[..|requests| - 1] == [] {
        assert After([]) == FRESH;
      }
    }
  }
}
