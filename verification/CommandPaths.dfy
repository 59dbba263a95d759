/** The command paths the ownership protocol tells apart, as the command line spells
    them (cli/src/runtime.rs). */
module CommandPaths {
  import opened Journal

  predicate StartsWith(s: string, prefix: string) {
    |prefix| <= |s| && s[..|prefix|] == prefix
  }

  function PathOf(command: string): Path {
    if command == "net stop" then NetStop
    else if command == "net start" then NetStart
    else if command == "net check" then NetCheck
    else if command == "net trust" then NetTrust
    else if StartsWith(command, "net ") then NetControl
    else if command == "video stop" then VideoStop
    else if command == "video status" then VideoStatus
    else if command == "video mark" then VideoMark
    else if command == "disconnect" then Disconnect
    else if command == "verify recover" then VerifyRecover
    else Other
  }

  /** The commands that join a quarantined session. */
  lemma CleanupIff(command: string)
    ensures IsCleanup(PathOf(command))
      <==> command in ["net stop", "video stop", "disconnect", "verify recover"]
  {
    NetLeaves();
  }

  /** The commands that go on without an answer from the device: everything under
      `net` that needs none, and the recorder's and the connection's own control. */
  lemma OfflineIff(command: string)
    ensures AllowsOfflineControl(PathOf(command))
      <==> (StartsWith(command, "net ") && command !in ["net start", "net check", "net trust"])
           || command in ["video status", "video stop", "video mark", "disconnect"]
  {
    NetLeaves();
  }

  lemma NetLeaves()
    ensures StartsWith("net stop", "net ") && StartsWith("net start", "net ")
    ensures StartsWith("net check", "net ") && StartsWith("net trust", "net ")
    ensures !StartsWith("video stop", "net ") && !StartsWith("video status", "net ")
    ensures !StartsWith("video mark", "net ") && !StartsWith("disconnect", "net ")
    ensures !StartsWith("verify recover", "net ")
  {
    assert "net stop"[..4] == "net " && "net start"[..4] == "net ";
    assert "net check"[..4] == "net " && "net trust"[..4] == "net ";
    assert "video stop"[..4][0] == 'v' && "video status"[..4][0] == 'v' && "video mark"[..4][0] == 'v';
    assert "disconnect"[..4][0] == 'd' && "verify recover"[..4][0] == 'v';
  }
}
