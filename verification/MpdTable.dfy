/**
 The table of commands in src/Protocols/MPD/Commands.hpp, as the search for a
 name sees it, without the commands that only some builds have.
 */
module MpdTable {
  import opened Common
  import opened MpdState

  /** The commands nothing serves, with their argument bounds. */
  function UnservedBounds(name: string): Option<(int, int)> {
    if name in {"close", "kill"} then Some((-1, -1))
    else if name in {"channels", "clear", "config", "currentsong", "listpartitions", "listplaylists", "outputs",
                     "playlist", "readmessages", "replay_gain_status", "stats", "stop", "urlhandlers"} then Some((0, 0))
    else if name in {"listfiles", "lsinfo", "playlistid", "playlistinfo", "rescan", "shuffle", "update"} then
      Some((0, 1))
    else if name == "tagtypes" then Some((0, -1))
    else if name in {"crossfade", "disableoutput", "enableoutput", "listplaylist", "listplaylistinfo", "mixrampdb",
                     "mixrampdelay", "newpartition", "partition", "password", "playlistclear", "readcomments",
                     "replay_gain_mode", "rm", "save", "seekcur", "subscribe", "toggleoutput", "unsubscribe"} then
      Some((1, 1))
    else if name in {"cleartagid", "load", "plchangesposid"} then Some((1, 2))
    else if name in {"playlistfind", "playlistsearch"} then Some((1, -1))
    else if name in {"albumart", "move", "moveid", "playlistadd", "playlistdelete", "rangeid", "rename", "seek",
                     "seekid", "sendmessage", "swap", "swapid"} then Some((2, 2))
    else if name in {"prio", "prioid"} then Some((2, -1))
    else if name in {"addtagid", "outputset", "playlistmove"} then Some((3, 3))
    else None
  }

  function Unserved(name: string): (found: Option<CommandId>)
    ensures found.Some? ==> found.value.Other? && found.value.name == name
  {
    var bounds := UnservedBounds(name);
    if bounds.Some? then Some(Other(name, bounds.value.0, bounds.value.1)) else None
  }

  /** The commands something serves, in the order of the table. */
  function ServedUpToDelete(name: string): (found: Option<CommandId>)
    ensures found.Some? ==> NameOf(found.value) == name
  {
    if name == "add" then Some(Add)
    else if name == "addid" then Some(Addid)
    else if name == "clearerror" then Some(Clearerror)
    else if name == "commands" then Some(Commands)
    else if name == "command_list_begin" then Some(CommandListBegin)
    else if name == "command_list_ok_begin" then Some(CommandListOkBegin)
    else if name == "command_list_end" then Some(CommandListEnd)
    else if name == "consume" then Some(Consume)
    else if name == "decoders" then Some(Decoders)
    else if name == "delete" then Some(Delete)
    else None
  }

  function ServedUpToPlchanges(name: string): (found: Option<CommandId>)
    ensures found.Some? ==> NameOf(found.value) == name
  {
    if name == "deleteid" then Some(Deleteid)
    else if name == "idle" then Some(Idle)
    else if name == "noidle" then Some(Noidle)
    else if name == "next" then Some(Next)
    else if name == "notcommands" then Some(Notcommands)
    else if name == "pause" then Some(Pause)
    else if name == "ping" then Some(Ping)
    else if name == "play" then Some(Play)
    else if name == "playid" then Some(Playid)
    else if name == "plchanges" then Some(Plchanges)
    else None
  }

  function ServedUpToVolume(name: string): (found: Option<CommandId>)
    ensures found.Some? ==> NameOf(found.value) == name
  {
    if name == "previous" then Some(Previous)
    else if name == "random" then Some(Random)
    else if name == "repeat" then Some(Repeat)
    else if name == "setvol" then Some(Setvol)
    else if name == "single" then Some(Single)
    else if name == "status" then Some(Status)
    else if name == "volume" then Some(Volume)
    else None
  }

  /** The search for a name. What is found has that name, so a reply that names the command names what was sent. */
  function Lookup(name: string): (found: Option<CommandId>)
    ensures found.Some? ==> NameOf(found.value) == name
  {
    var first, second, third := ServedUpToDelete(name), ServedUpToPlchanges(name), ServedUpToVolume(name);
    if first.Some? then first else if second.Some? then second else if third.Some? then third else Unserved(name)
  }

  predicate UpToDelete(c: CommandId) {
    c.Add? || c.Addid? || c.Clearerror? || c.Commands? || c.CommandListBegin? || c.CommandListOkBegin? ||
    c.CommandListEnd? || c.Consume? || c.Decoders? || c.Delete?
  }

  predicate UpToNotcommands(c: CommandId) {
    c.Deleteid? || c.Idle? || c.Noidle? || c.Next? || c.Notcommands?
  }

  predicate UpToPlchanges(c: CommandId) {
    c.Pause? || c.Ping? || c.Play? || c.Playid? || c.Plchanges?
  }

  predicate UpToVolume(c: CommandId) {
    c.Previous? || c.Random? || c.Repeat? || c.Setvol? || c.Single? || c.Status? || c.Volume?
  }

  lemma FoundUpToDelete(c: CommandId)
    requires UpToDelete(c)
    ensures ServedUpToDelete(NameOf(c)) == Some(c)
  {
  }

  lemma NotUpToDelete(c: CommandId)
    requires UpToNotcommands(c) || UpToPlchanges(c)
    ensures ServedUpToDelete(NameOf(c)) == None
  {
  }

  lemma VolumeNotUpToDelete(c: CommandId)
    requires UpToVolume(c)
    ensures ServedUpToDelete(NameOf(c)) == None
  {
  }

  lemma VolumeNotUpToPlchanges(c: CommandId)
    requires UpToVolume(c)
    ensures ServedUpToPlchanges(NameOf(c)) == None
  {
  }

  lemma FoundUpToNotcommands(c: CommandId)
    requires UpToNotcommands(c)
    ensures ServedUpToPlchanges(NameOf(c)) == Some(c)
  {
  }

  lemma FoundUpToPlchanges(c: CommandId)
    requires UpToPlchanges(c)
    ensures ServedUpToPlchanges(NameOf(c)) == Some(c)
  {
  }

  lemma FoundUpToVolume(c: CommandId)
    requires UpToVolume(c)
    ensures ServedUpToVolume(NameOf(c)) == Some(c)
  {
  }

  /** Every served command is found under its name. */
  lemma EveryServedIsFound(c: CommandId)
    requires !c.Other?
    ensures Lookup(NameOf(c)) == Some(c)
  {
    if UpToDelete(c) {
      FoundUpToDelete(c);
    } else if UpToNotcommands(c) {
      NotUpToDelete(c);
      FoundUpToNotcommands(c);
    } else if UpToPlchanges(c) {
      NotUpToDelete(c);
      FoundUpToPlchanges(c);
    } else {
      VolumeNotUpToDelete(c);
      VolumeNotUpToPlchanges(c);
      FoundUpToVolume(c);
    }
  }

  // ---------- How many arguments ----------

  /** No argument at all. */
  predicate Alone(c: CommandId) {
    c.Clearerror? || c.Commands? || c.Notcommands? || c.CommandListBegin? || c.CommandListOkBegin? ||
    c.CommandListEnd? || c.Decoders? || c.Next? || c.Noidle? || c.Ping? || c.Previous? || c.Status?
  }

  /** Exactly one. */
  predicate WithOne(c: CommandId) {
    c.Add? || c.Consume? || c.Random? || c.Repeat? || c.Delete? || c.Deleteid? || c.Setvol? || c.Single? || c.Volume?
  }

  predicate WithAtMostOne(c: CommandId) { c.Pause? || c.Play? || c.Playid? }

  predicate WithOneOrTwo(c: CommandId) { c.Addid? || c.Plchanges? }

  /** For every served command, with which numbers of arguments it runs; for the others the bounds of the table
      decide, where a negative one is no bound and a lower bound of 0 is none either. */
  lemma FitExactlyWhen(c: CommandId, args: seq<string>)
    ensures Alone(c) ==> (ArgsFit(c, args) <==> |args| == 0)
    ensures WithOne(c) ==> (ArgsFit(c, args) <==> |args| == 1)
    ensures WithAtMostOne(c) ==> (ArgsFit(c, args) <==> |args| <= 1)
    ensures WithOneOrTwo(c) ==> (ArgsFit(c, args) <==> 1 <= |args| <= 2)
    ensures c.Idle? ==> ArgsFit(c, args)
    ensures c.Other? ==> (ArgsFit(c, args) <==> c.min <= |args| && (c.max < 0 || |args| <= c.max))
    ensures Alone(c) || WithOne(c) || WithAtMostOne(c) || WithOneOrTwo(c) || c.Idle? || c.Other?
  {
  }
}
