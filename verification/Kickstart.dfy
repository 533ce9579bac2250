/** The file systems that the management server's installation makes. */
module Kickstart {
  import opened LvmTargets
  import opened LvmRemove

  const FILE_SYSTEMS := [
    KickstartFs(Xfs, true, true, "root", "/"),
    KickstartFs(Xfs, true, true, "home", "/home"),
    KickstartFs(Swap, false, false, "swap", "swap"),
    KickstartFs(Xfs, true, true, "var", "/var"),
    KickstartFs(Xfs, true, true, "var_tmp", "/var/tmp"),
    KickstartFs(Xfs, true, true, "var_opt_rh", "/var/opt/rh"),
    KickstartFs(Xfs, true, true, "var_lib_puppetdb", "/var/lib/puppetdb"),
    KickstartFs(Xfs, false, true, "var_log", "/var/log"),
    KickstartFs(Xfs, true, true, "var_www", "/var/www"),
    KickstartFs(Xfs, false, false, "software", "/software")]

  /** The table meets what the merging check relies on: nothing but ext4 and xfs volumes is snapped. */
  lemma {:induction false} TableSnapsNoSwap()
    ensures SnapsNoSwap(FILE_SYSTEMS)
  {
    forall k | k in FILE_SYSTEMS && (k.deploymentSnap || k.namedSnap) ensures NonSwapType(k.fsType) {
      var i :| 0 <= i < |FILE_SYSTEMS| && FILE_SYSTEMS[i] == k;
    }
  }
}
