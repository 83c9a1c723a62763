/**
 * Device discovery: the scan of the input-device directory for event nodes,
 * and the specification of picking the first candidate that opens and
 * passes the capability test. Opening a node and querying it are system
 * calls; their outcomes are given to the model as a `Probe` per path.
 */
module Discovery {
  import opened Options
  import opened Geometry
  import opened TouchTypes
  import opened Capability

  const InputDir := "/dev/input/"
  const EventPrefix := "event"

  /** Does `pat` occur in `s` at position `i`? */
  predicate OccursAt(s: string, pat: string, i: nat)
  {
    i + |pat| <= |s| && s[i..i + |pat|] == pat
  }

  /**
   * `std::string::find` starting at `from`: the first position at or after
   * `from` at which `pat` occurs in `s`, or None (`npos`).
   */
  function FindFrom(s: string, pat: string, from: nat): (r: Option<nat>)
    requires from <= |s|
    ensures r.Some? ==> from <= r.value && OccursAt(s, pat, r.value)
    ensures forall i: nat :: from <= i && (r.None? || i < r.value) ==> !OccursAt(s, pat, i)
    decreases |s| - from
  {
    if OccursAt(s, pat, from) then Some(from)
    else if |s| <= from + |pat| then None
    else FindFrom(s, pat, from + 1)
  }

  /** `s.find(pat)`: the first occurrence of `pat` in `s`, or None when there is none. */
  function Find(s: string, pat: string): (r: Option<nat>)
    ensures r.Some? ==> OccursAt(s, pat, r.value) && forall i: nat :: i < r.value ==> !OccursAt(s, pat, i)
    ensures r.None? ==> forall i: nat :: !OccursAt(s, pat, i)
  {
    FindFrom(s, pat, 0)
  }

  /**
   * The scan keeps a directory entry when `find("event") == 0`, which holds
   * exactly for the names that start with "event".
   */
  predicate IsEventNode(name: string): (r: bool)
    ensures r <==> EventPrefix <= name
  {
    Find(name, EventPrefix) == Some(0)
  }

  /**
   * The paths the scan returns for the directory entries `names`, in
   * directory order: no more than there are entries, and each one an event
   * node under the input directory.
   */
  function EventPaths(names: seq<string>): (r: seq<string>)
    ensures |r| <= |names|
    ensures forall i :: 0 <= i < |r| ==> InputDir + EventPrefix <= r[i]
  {
    if names == [] then []
    else
      var last := names[|names| - 1];
      EventPaths(names[..|names| - 1]) + (if IsEventNode(last) then [InputDir + last] else [])
  }

  /** Scanning two runs of entries is scanning each and appending: the order is kept. */
  lemma {:induction false} EventPathsAppend(a: seq<string>, b: seq<string>)
    ensures EventPaths(a + b) == EventPaths(a) + EventPaths(b)
    decreases |b|
  {
    if b == [] {
      assert a + b == a;
    } else {
      var b' := b[..|b| - 1];
      assert (a + b)[..|a + b| - 1] == a + b';
      assert (a + b)[|a + b| - 1] == b[|b| - 1];
      EventPathsAppend(a, b');
    }
  }

  /** A path is in the result iff it is "/dev/input/" + an entry whose name starts with "event". */
  lemma {:induction false} EventPathsMembers(names: seq<string>, p: string)
    ensures p in EventPaths(names) <==> exists n :: n in names && IsEventNode(n) && p == InputDir + n
  {
    if names != [] {
      var init, last := names[..|names| - 1], names[|names| - 1];
      assert names == init + [last];
      EventPathsMembers(init, p);
      if p in EventPaths(init) {
        var n :| n in init && IsEventNode(n) && p == InputDir + n;
        assert n in names;
      }
    }
  }

  /**
   * Scans the entries of the input-device directory. `listing` is what
   * `opendir`/`readdir` give: None if the directory cannot be opened,
   * otherwise the entry names in directory order.
   */
  method ScanInputDevicesPath(listing: Option<seq<string>>) returns (paths: seq<string>)
    ensures listing.None? ==> paths == []
    ensures listing.Some? ==> paths == EventPaths(listing.value)
  {
    paths := [];
    if listing.None? {
      return;
    }
    var entries := listing.value;
    var i := 0;
    while i < |entries|
      invariant 0 <= i <= |entries|
      invariant paths == EventPaths(entries[..i])
    {
      var filename := entries[i];
      if Find(filename, EventPrefix) == Some(0) {
        paths := paths + [InputDir + filename];
      }
      assert entries[..i + 1][..i] == entries[..i];
      i := i + 1;
    }
    assert entries[..i] == entries;
  }

  /**
   * The outcome of opening one candidate path read/write: either the open
   * failed (-1), or it gave a descriptor, the result of the capability query
   * on it, and the per-axis scale that would be computed from the device's
   * reported axis maxima.
   */
  datatype Probe =
    | OpenFailed
    | Opened(fd: nat, absBits: Option<seq<bv64>>, scale: Vector2)

  /** A capability query fills the whole kEvByteSize-word bitmask. */
  predicate ProbeWellFormed(p: Probe)
  {
    p.Opened? && p.absBits.Some? ==> |p.absBits.value| == KEvByteSize
  }

  /** The candidate opens, its capability query succeeds, and the four multi-touch axis bits are set. */
  predicate Qualifies(p: Probe): (r: bool)
    requires ProbeWellFormed(p)
    ensures r <==> p.Opened? && p.absBits.Some?
                   && BitSet(p.absBits.value, SlotBit) && BitSet(p.absBits.value, TrackingIdBit)
                   && BitSet(p.absBits.value, PositionXBit) && BitSet(p.absBits.value, PositionYBit)
  {
    p.Opened? && CheckIsTouchDevice(p.absBits)
  }

  /** The candidate opened with descriptor `fd` and failed the multi-touch test. */
  predicate Rejected(p: Probe, fd: nat)
    requires ProbeWellFormed(p)
  {
    p.Opened? && !Qualifies(p) && p.fd == fd
  }

  /** Index of the first candidate that qualifies, if any. */
  function FirstTouchDevice(paths: seq<string>, probe: string -> Probe): (r: Option<nat>)
    requires forall path :: ProbeWellFormed(probe(path))
    ensures r.Some? ==> r.value < |paths| && Qualifies(probe(paths[r.value]))
    ensures forall j :: 0 <= j < |paths| && (r.None? || j < r.value) ==> !Qualifies(probe(paths[j]))
  {
    if paths == [] then None
    else if Qualifies(probe(paths[0])) then Some(0)
    else
      match FirstTouchDevice(paths[1..], probe)
      case None => None
      case Some(i) => Some(i + 1)
  }

  /**
   * Descriptors of the candidates among `paths` that opened but failed the
   * test, in order: at most one per candidate, and a descriptor is closed
   * exactly when some candidate that opened with it was rejected.
   */
  function RejectedFds(paths: seq<string>, probe: string -> Probe): (r: seq<nat>)
    requires forall path :: ProbeWellFormed(probe(path))
    ensures |r| <= |paths|
    ensures forall fd :: fd in r <==> exists j :: 0 <= j < |paths| && Rejected(probe(paths[j]), fd)
  {
    if paths == [] then []
    else
      var p := probe(paths[|paths| - 1]);
      RejectedFds(paths[..|paths| - 1], probe) + (if p.Opened? && !Qualifies(p) then [p.fd] else [])
  }

  /**
   * The descriptors selection closes: those of the rejected candidates before
   * the selected one, or of all rejected candidates when none qualifies.
   */
  function SelectionRejects(paths: seq<string>, probe: string -> Probe): seq<nat>
    requires forall path :: ProbeWellFormed(probe(path))
  {
    match FirstTouchDevice(paths, probe)
    case Some(k) => RejectedFds(paths[..k], probe)
    case None => RejectedFds(paths, probe)
  }

  /** The candidate paths a directory listing gives: none when the directory cannot be opened. */
  function ListedPaths(listing: Option<seq<string>>): seq<string>
  {
    if listing.Some? then EventPaths(listing.value) else []
  }

  /** Before the first match, every candidate that opened is one that was rejected. */
  lemma {:induction false} RejectedFdsBeforeMatch(paths: seq<string>, probe: string -> Probe)
    requires forall path :: ProbeWellFormed(probe(path))
    requires forall j :: 0 <= j < |paths| ==> !Qualifies(probe(paths[j]))
    ensures |RejectedFds(paths, probe)| == |set j | 0 <= j < |paths| && probe(paths[j]).Opened?| 
  {
    if paths != [] {
      var init := paths[..|paths| - 1];
      RejectedFdsBeforeMatch(init, probe);
      var s := set j | 0 <= j < |init| && probe(init[j]).Opened?;
      var t := set j | 0 <= j < |paths| && probe(paths[j]).Opened?;
      var n := |paths| - 1;
      if probe(paths[n]).Opened? {
        assert t == s + {n};
      } else {
        assert t == s;
      }
    }
  }
}
