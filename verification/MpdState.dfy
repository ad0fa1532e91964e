/**
 The state of `MPDProto` in src/Protocols/MPD.hpp, with the part of the server
 it talks to: clients, the three queues between the two threads, and the event
 queue of src/Server.cpp.

 Flag words are sets of bit numbers. The player behind the protocol is a type
 parameter: nothing here depends on what it is.
 */
module MpdState {
  import opened Common

  type ClientId = nat

  const CLIENT_NONE: nat := 0
  const CLIENT_ALL: nat := 0xFFFF_FFFF

  // ---------- Events and idle flags ----------

  datatype Event =
    | Invalid | AddSong | RemoveSong | MoveSong
    | StateChange | VolumeChange | QueueChange | OptionChange | SongChange
    | ActionNext | ActionPrevious | ActionPlay | ActionPause | ActionStop

  const IDLE_PLAYLIST: nat := 3
  const IDLE_PLAYER: nat := 4
  const IDLE_MIXER: nat := 5
  const IDLE_OPTIONS: nat := 7
  /** `Idle_all` is 0xFFFF: all sixteen bits, four of which have no name. */
  const IDLE_ALL: set<nat> := set i: nat | 0 <= i < 16

  /** The idle flag an event triggers; the socket thread gives up on any other event. */
  function FlagOf(ev: Event): Option<nat> {
    match ev
    case StateChange => Some(IDLE_PLAYER)
    case QueueChange => Some(IDLE_PLAYLIST)
    case VolumeChange => Some(IDLE_MIXER)
    case OptionChange => Some(IDLE_OPTIONS)
    case _ => None
  }

  /** `getIdleName`, which knows four single flags. */
  function IdleName(flags: set<nat>): string {
    if flags == {IDLE_PLAYER} then "player"
    else if flags == {IDLE_MIXER} then "mixer"
    else if flags == {IDLE_PLAYLIST} then "playlist"
    else if flags == {IDLE_OPTIONS} then "options"
    else "TODO"
  }

  /** The bit an argument of `idle` stands for; "options" is not among them. */
  function IdleArgument(arg: string): Option<nat> {
    if arg == "database" then Some(0)
    else if arg == "update" then Some(1)
    else if arg == "stored_playlist" then Some(2)
    else if arg == "playlist" then Some(3)
    else if arg == "player" then Some(4)
    else if arg == "mixer" then Some(5)
    else if arg == "output" then Some(6)
    else if arg == "partition" then Some(8)
    else if arg == "sticker" then Some(9)
    else if arg == "subscription" then Some(10)
    else if arg == "message" then Some(11)
    else None
  }

  // ---------- Messages and replies ----------

  /** The commands `runCommand` serves. `Other` is any further entry of the command table, with its
      name and argument bounds (-1 for "no bound"); running it raises "unimplemented command". */
  datatype CommandId =
    | Add | Addid | Clearerror | Commands | Notcommands
    | CommandListBegin | CommandListOkBegin | CommandListEnd
    | Consume | Random | Repeat | Decoders | Delete | Deleteid
    | Idle | Next | Noidle | Pause | Ping | Play | Playid | Plchanges | Previous
    | Setvol | Single | Status | Volume
    | Other(name: string, min: int, max: int)

  function NameOf(c: CommandId): string {
    match c
    case Add => "add"
    case Addid => "addid"
    case Clearerror => "clearerror"
    case Commands => "commands"
    case Notcommands => "notcommands"
    case CommandListBegin => "command_list_begin"
    case CommandListOkBegin => "command_list_ok_begin"
    case CommandListEnd => "command_list_end"
    case Consume => "consume"
    case Random => "random"
    case Repeat => "repeat"
    case Decoders => "decoders"
    case Delete => "delete"
    case Deleteid => "deleteid"
    case Idle => "idle"
    case Next => "next"
    case Noidle => "noidle"
    case Pause => "pause"
    case Ping => "ping"
    case Play => "play"
    case Playid => "playid"
    case Plchanges => "plchanges"
    case Previous => "previous"
    case Setvol => "setvol"
    case Single => "single"
    case Status => "status"
    case Volume => "volume"
    case Other(name, _, _) => name
  }

  /** `MinArgs` and `MaxArgs` of the command table. */
  function BoundsOf(c: CommandId): (int, int) {
    match c
    case Add => (1, 1)
    case Addid => (1, 2)
    case Consume => (1, 1)
    case Random => (1, 1)
    case Repeat => (1, 1)
    case Delete => (1, 1)
    case Deleteid => (1, 1)
    case Idle => (0, -1)
    case Pause => (0, 1)
    case Play => (0, 1)
    case Playid => (0, 1)
    case Plchanges => (1, 2)
    case Setvol => (1, 1)
    case Single => (1, 1)
    case Volume => (1, 1)
    case Other(_, min, max) => (min, max)
    case _ => (0, 0)
  }

  predicate ArgsFit(c: CommandId, args: seq<string>) {
    var (min, max) := BoundsOf(c);
    !(min > 0 && |args| < min) && !(max >= 0 && |args| > max)
  }

  /** `garbage` is what the uninitialised flag word of the `idle` branch holds when the message runs. */
  datatype Message = Message(
    client: ClientId, line: string, command: Option<CommandId>, args: seq<string>, garbage: set<nat>)

  /** What goes out on a socket. `Changed` carries the flags it is written for; the text on the wire
      is "changed: " and their `IdleName`. */
  datatype Reply =
    | Greeting
    | Ok
    | ListOk
    | Ack(code: int, index: nat, command: string, text: string)
    | Changed(flags: set<nat>)
    | Data(text: string)

  /** One thing that happened to a client: a drained event reached it, or something was written to it. */
  datatype Note = Heard(flag: nat) | Wrote(reply: Reply)

  /** `since` counts the events drained before the client connected; `history` is everything that
      happened to it since. Neither is read by the protocol. */
  datatype Client = Client(
    waiting: set<nat>,
    pending: set<nat>,
    inList: bool,
    verbose: bool,
    list: seq<Message>,
    since: nat,
    history: seq<Note>)

  /** An `MPDError`: the index is set by `setCmdListIndex`, which does not rebuild the text. */
  datatype Error = Error(code: int, command: string, text: string, index: nat)

  const ACK_ERROR_ARG: int := 2
  const ACK_ERROR_UNKNOWN: int := 5

  /** What the player makes of a command: the data it writes, the events it pushes, and whether the
      handler returned, raised an `MPDError`, or let another exception out (a failed `stoi`). */
  datatype Ending = Fine | Fails(code: int, text: string) | Throws
  datatype Exec<P> = Exec(player: P, out: seq<string>, events: seq<Event>, ending: Ending)

  /** `running` is true while the socket thread has not returned. The last four fields are history:
      events in the order pushed and drained, messages in the order produced and handled. */
  datatype Proto<P> = Proto(
    player: P,
    clients: map<ClientId, Client>,
    counter: nat,
    eventQueue: seq<Event>,
    sendQueue: seq<Event>,
    batch: seq<Message>,
    recvQueue: seq<Message>,
    running: bool,
    pushed: seq<Event>,
    drained: seq<Event>,
    produced: seq<Message>,
    handled: seq<Message>)

  /** `m_clientMap[c]`: an unknown client springs into being, without a socket. */
  function ClientOf<P>(s: Proto<P>, c: ClientId): Client {
    if c in s.clients then s.clients[c] else Client({}, {}, false, false, [], |s.drained|, [])
  }

  function With<P>(s: Proto<P>, c: ClientId, cl: Client): Proto<P> {
    s.(clients := s.clients[c := cl])
  }

  lemma WithWith<P>(s: Proto<P>, c: ClientId, a: Client, b: Client)
    ensures With(With(s, c, a), c, b) == With(s, c, b)
  {
    assert s.clients[c := a][c := b] == s.clients[c := b];
  }

  function Noted(cl: Client, note: Note): Client {
    cl.(history := cl.history + [note])
  }

  /** `writeData`. */
  function Write<P>(s: Proto<P>, c: ClientId, r: Reply): Proto<P> {
    With(s, c, Noted(ClientOf(s, c), Wrote(r)))
  }

  function WriteAll(cl: Client, out: seq<string>): Client
    decreases |out|
  {
    if out == [] then cl else WriteAll(Noted(cl, Wrote(Data(out[0]))), out[1..])
  }
}
