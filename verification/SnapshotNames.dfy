/** Names derived for snapshots and their cache records. */
module SnapshotNames {
  import opened Seqs

  const UPGRADE_SNAPSHOT_NAME := "snapshot"

  /** The deployment snapshot of a volume has an empty suffix, a named snapshot carries its tag. */
  function GenSnapshotName(volume: string, snapshot: string): string {
    "L_" + volume + "_" + if snapshot == UPGRADE_SNAPSHOT_NAME then "" else snapshot
  }

  /** The agents only know how to name the cache records of a snapshot that follows the convention. */
  function GetCacheName(snapshot: string, infix: char): Option<string> {
    if "L_" <= snapshot then Some(['L', infix] + snapshot[2..]) else None
  }

  function CacheObject(snapshot: string): string {
    ['L', 'O'] + if |snapshot| >= 2 then snapshot[2..] else ""
  }

  function CacheVolume(snapshot: string): string {
    ['L', 'V'] + if |snapshot| >= 2 then snapshot[2..] else ""
  }

  lemma {:induction false} CacheNames(snapshot: string)
    requires "L_" <= snapshot
    ensures GetCacheName(snapshot, 'O') == Some(CacheObject(snapshot))
    ensures GetCacheName(snapshot, 'V') == Some(CacheVolume(snapshot))
    ensures |CacheObject(snapshot)| == |CacheVolume(snapshot)| == |snapshot|
  {
  }

  /** Different snapshots never share a cache record, and the three records of one snapshot differ. */
  lemma {:induction false} CacheNamesInjective(a: string, b: string)
    requires "L_" <= a && "L_" <= b
    ensures CacheObject(a) == CacheObject(b) <==> a == b
    ensures CacheVolume(a) == CacheVolume(b) <==> a == b
    ensures CacheObject(a) != CacheVolume(b) && CacheObject(a) != b && CacheVolume(a) != b
  {
    assert a == "L_" + a[2..] && b == "L_" + b[2..];
    assert CacheObject(a)[2..] == a[2..] && CacheObject(b)[2..] == b[2..];
    assert CacheVolume(a)[2..] == a[2..] && CacheVolume(b)[2..] == b[2..];
    assert CacheObject(a)[1] == 'O' && CacheVolume(a)[1] == 'V' && b[1] == '_' && CacheVolume(b)[1] == 'V';
  }

  /** Under one tag the snapshot name determines the volume, and for one volume it determines the tag. */
  lemma {:induction false} SnapshotNamesInjective(v: string, w: string, tag: string, other: string)
    ensures GenSnapshotName(v, tag) == GenSnapshotName(w, tag) <==> v == w
    ensures tag != UPGRADE_SNAPSHOT_NAME && other != UPGRADE_SNAPSHOT_NAME ==>
      (GenSnapshotName(v, tag) == GenSnapshotName(v, other) <==> tag == other)
  {
    var suffix := if tag == UPGRADE_SNAPSHOT_NAME then "" else tag;
    assert GenSnapshotName(v, tag)[2..][..|v|] == v;
    assert GenSnapshotName(w, tag)[2..][..|w|] == w;
    assert GenSnapshotName(v, tag)[|v| + 3..] == suffix;
    assert GenSnapshotName(v, other)[|v| + 3..] == if other == UPGRADE_SNAPSHOT_NAME then "" else other;
  }

  /** A deployment snapshot's name is a prefix of the name of every named snapshot of the same volume. */
  lemma {:induction false} DeploymentNameIsPrefix(volume: string, tag: string)
    ensures GenSnapshotName(volume, UPGRADE_SNAPSHOT_NAME) <= GenSnapshotName(volume, tag)
  {
  }
}
