/** Wire packets and their JSON form.

    JSON text itself is Qt library code, so a queued record is modelled as the result of parsing it:
    a document that is not JSON, a document whose root is not an object, or an object. */
module Packets {

  datatype Command =
    | Unknown | Connect | ConnectAck | SendMessage | SendMessageAck | ReceiveMessage | MessageReceivedAck
    | Heartbeat | HeartbeatAck | CreateGroup | CreateGroupAck | AddMember | AddMemberAck
    | RemoveMember | RemoveMemberAck | LeaveGroup | LeaveGroupAck | GroupMemberChanged
    | GroupList | GroupListAck | FriendRequest | FriendRequestAck | FriendAccept | FriendAcceptAck
    | FriendReject | FriendRejectAck | FriendList | FriendListAck | FriendRequestList
    | FriendRequestListAck | FriendRequestNotify | FriendChanged

  /** A JSON value. Numbers are the integers the protocol uses. */
  datatype Json =
    | JNull
    | JBool(value: bool)
    | JNumber(number: int)
    | JString(text: string)
    | JArray(items: seq<Json>)
    | JObject(fields: map<string, Json>)

  datatype Document = NotJson(reason: string) | NotAnObject | Object(fields: map<string, Json>)

  datatype Packet = Packet(
    cmd: Command,
    msgId: string,
    protocolVersion: string,
    timestampUtc: string,
    payload: map<string, Json>,
    code: int,
    message: string)

  datatype DecodeResult = Failed(errorMessage: string) | Decoded(packet: Packet)

  function CommandName(cmd: Command): string {
    match cmd
    case Unknown => "unknown"
    case Connect => "connect"
    case ConnectAck => "connect_ack"
    case SendMessage => "send_message"
    case SendMessageAck => "send_message_ack"
    case ReceiveMessage => "receive_message"
    case MessageReceivedAck => "message_received_ack"
    case Heartbeat => "heartbeat"
    case HeartbeatAck => "heartbeat_ack"
    case CreateGroup => "create_group"
    case CreateGroupAck => "create_group_ack"
    case AddMember => "add_member"
    case AddMemberAck => "add_member_ack"
    case RemoveMember => "remove_member"
    case RemoveMemberAck => "remove_member_ack"
    case LeaveGroup => "leave_group"
    case LeaveGroupAck => "leave_group_ack"
    case GroupMemberChanged => "group_member_changed"
    case GroupList => "group_list"
    case GroupListAck => "group_list_ack"
    case FriendRequest => "friend_request"
    case FriendRequestAck => "friend_request_ack"
    case FriendAccept => "friend_accept"
    case FriendAcceptAck => "friend_accept_ack"
    case FriendReject => "friend_reject"
    case FriendRejectAck => "friend_reject_ack"
    case FriendList => "friend_list"
    case FriendListAck => "friend_list_ack"
    case FriendRequestList => "friend_request_list"
    case FriendRequestListAck => "friend_request_list_ack"
    case FriendRequestNotify => "friend_request_notify"
    case FriendChanged => "friend_changed"
  }

  /** Every command with an entry in the name-to-command table; `Unknown` has none. */
  const NAMED_COMMANDS: seq<Command> :=
    [ Connect, ConnectAck, SendMessage, SendMessageAck, ReceiveMessage, MessageReceivedAck,
      Heartbeat, HeartbeatAck, CreateGroup, CreateGroupAck, AddMember, AddMemberAck,
      RemoveMember, RemoveMemberAck, LeaveGroup, LeaveGroupAck, GroupMemberChanged,
      GroupList, GroupListAck, FriendRequest, FriendRequestAck, FriendAccept, FriendAcceptAck,
      FriendReject, FriendRejectAck, FriendList, FriendListAck, FriendRequestList,
      FriendRequestListAck, FriendRequestNotify, FriendChanged ]

  /** Looks a name up among `candidates`; a name with no entry means `Unknown`. */
  function CommandNamed(name: string, candidates: seq<Command>): Command {
    if candidates == [] then Unknown
    else if CommandName(candidates[0]) == name then candidates[0]
    else CommandNamed(name, candidates[1..])
  }

  function CommandFromString(name: string): Command {
    CommandNamed(name, NAMED_COMMANDS)
  }

  // Field access with Qt's defaults for a missing or differently typed member.

  function TextField(obj: map<string, Json>, name: string, default: string): string {
    if name in obj && obj[name].JString? then obj[name].text else default
  }

  function NumberField(obj: map<string, Json>, name: string, default: int): int {
    if name in obj && obj[name].JNumber? then obj[name].number else default
  }

  function ObjectField(obj: map<string, Json>, name: string): map<string, Json> {
    if name in obj && obj[name].JObject? then obj[name].fields else map[]
  }

  /** `code` is written only when it is not 0, `message` only when it is not empty. */
  function Encode(p: Packet): Document {
    var base := map[
      "cmd" := JString(CommandName(p.cmd)),
      "msgId" := JString(p.msgId),
      "protocolVersion" := JString(p.protocolVersion),
      "timestamp" := JString(p.timestampUtc),
      "payload" := JObject(p.payload)];
    var withCode := if p.code != 0 then base["code" := JNumber(p.code)] else base;
    Object(if p.message != "" then withCode["message" := JString(p.message)] else withCode)
  }

  function Decode(d: Document): DecodeResult {
    match d
    case NotJson(reason) => Failed("JSON parse error: " + reason)
    case NotAnObject => Failed("JSON root is not an object")
    case Object(obj) =>
      if "cmd" !in obj then Failed("Missing required field: cmd")
      else if "msgId" !in obj then Failed("Missing required field: msgId")
      else Decoded(Packet(
          CommandFromString(TextField(obj, "cmd", "")),
          TextField(obj, "msgId", ""),
          TextField(obj, "protocolVersion", "1.0"),
          TextField(obj, "timestamp", ""),
          ObjectField(obj, "payload"),
          NumberField(obj, "code", 0),
          TextField(obj, "message", "")))
  }

  // The length of a name, its first letter and its sixth letter from the end tell the names apart.
  ghost function Fingerprint(cmd: Command): (nat, char, char) {
    match cmd
    case Unknown => (7, 'u', 'n')
    case Connect => (7, 'c', 'o')
    case ConnectAck => (11, 'c', 'c')
    case SendMessage => (12, 's', 'e')
    case SendMessageAck => (16, 's', 'g')
    case ReceiveMessage => (15, 'r', 'e')
    case MessageReceivedAck => (20, 'm', 'e')
    case Heartbeat => (9, 'h', 'r')
    case HeartbeatAck => (13, 'h', 'a')
    case CreateGroup => (12, 'c', '_')
    case CreateGroupAck => (16, 'c', 'u')
    case AddMember => (10, 'a', 'm')
    case AddMemberAck => (14, 'a', 'e')
    case RemoveMember => (13, 'r', 'm')
    case RemoveMemberAck => (17, 'r', 'e')
    case LeaveGroup => (11, 'l', '_')
    case LeaveGroupAck => (15, 'l', 'u')
    case GroupMemberChanged => (20, 'g', 'h')
    case GroupList => (10, 'g', 'p')
    case GroupListAck => (14, 'g', 's')
    case FriendRequest => (14, 'f', 'e')
    case FriendRequestAck => (18, 'f', 's')
    case FriendAccept => (13, 'f', 'a')
    case FriendAcceptAck => (17, 'f', 'p')
    case FriendReject => (13, 'f', 'r')
    case FriendRejectAck => (17, 'f', 'c')
    case FriendList => (11, 'f', 'd')
    case FriendListAck => (15, 'f', 's')
    case FriendRequestList => (19, 'f', 't')
    case FriendRequestListAck => (23, 'f', 's')
    case FriendRequestNotify => (21, 'f', 'n')
    case FriendChanged => (14, 'f', 'h')
  }

  lemma LengthOf(cmd: Command)
    ensures |CommandName(cmd)| == Fingerprint(cmd).0
    ensures |CommandName(cmd)| >= 6
  {
  }

  lemma FirstLetterOf(cmd: Command)
    requires |CommandName(cmd)| >= 6
    ensures CommandName(cmd)[0] == Fingerprint(cmd).1
  {
  }

  lemma SixthLetterOf(cmd: Command)
    requires |CommandName(cmd)| == Fingerprint(cmd).0 >= 6
    ensures CommandName(cmd)[|CommandName(cmd)| - 6] == Fingerprint(cmd).2
  {
  }

  lemma FingerprintOf(cmd: Command)
    ensures var name := CommandName(cmd); 6 <= |name| && Fingerprint(cmd) == (|name|, name[0], name[|name| - 6])
  {
    LengthOf(cmd);
    FirstLetterOf(cmd);
    SixthLetterOf(cmd);
    hide CommandName, Fingerprint;
  }

  lemma NamesDiffer(a: Command, b: Command)
    requires a != b
    ensures CommandName(a) != CommandName(b)
  {
    FingerprintOf(a);
    FingerprintOf(b);
    hide CommandName;
    assert Fingerprint(a) != Fingerprint(b);
  }

  lemma {:induction false} NamedIsFound(cmd: Command, candidates: seq<Command>)
    requires cmd in candidates
    ensures CommandNamed(CommandName(cmd), candidates) == cmd
  {
    if candidates[0] != cmd {
      NamesDiffer(candidates[0], cmd);
      NamedIsFound(cmd, candidates[1..]);
    }
  }

  lemma {:induction false} UnnamedIsNotFound(candidates: seq<Command>)
    requires Unknown !in candidates
    ensures CommandNamed(CommandName(Unknown), candidates) == Unknown
  {
    if candidates != [] {
      NamesDiffer(candidates[0], Unknown);
      UnnamedIsNotFound(candidates[1..]);
    }
  }

  lemma CommandRoundTrip(cmd: Command)
    ensures CommandFromString(CommandName(cmd)) == cmd
  {
    if cmd == Unknown {
      UnnamedIsNotFound(NAMED_COMMANDS);
    } else {
      assert cmd in NAMED_COMMANDS;
      NamedIsFound(cmd, NAMED_COMMANDS);
    }
  }

  /** Decoding what the server encoded gives the packet back, for every packet. */
  lemma DecodeEncode(p: Packet)
    ensures Decode(Encode(p)) == Decoded(p)
  {
    CommandRoundTrip(p.cmd);
    hide CommandName, CommandFromString;
  }

  /** A document is a packet exactly when it is an object that names a command and a msgId, whatever they are. */
  lemma DecodedIff(d: Document)
    ensures Decode(d).Decoded? <==> d.Object? && "cmd" in d.fields && "msgId" in d.fields
  {
  }

  /** A field that is missing, or of another type, stands for its default; an unknown command for `Unknown`. */
  lemma DecodeDefaults(fields: map<string, Json>)
    requires "cmd" in fields && "msgId" in fields
    ensures var p := Decode(Object(fields)).packet;
            && ("protocolVersion" !in fields || !fields["protocolVersion"].JString? ==> p.protocolVersion == "1.0")
            && ("timestamp" !in fields || !fields["timestamp"].JString? ==> p.timestampUtc == "")
            && ("payload" !in fields || !fields["payload"].JObject? ==> p.payload == map[])
            && ("code" !in fields || !fields["code"].JNumber? ==> p.code == 0)
            && ("message" !in fields || !fields["message"].JString? ==> p.message == "")
            && (!fields["msgId"].JString? ==> p.msgId == "")
            && (!fields["cmd"].JString? ==> p.cmd == Unknown)
            && (p.cmd != Unknown ==> fields["cmd"] == JString(CommandName(p.cmd)))
  {
    FoundByName(TextField(fields, "cmd", ""), NAMED_COMMANDS);
    EmptyNamesNothing(NAMED_COMMANDS);
    hide CommandName;
  }

  lemma {:induction false} FoundByName(name: string, candidates: seq<Command>)
    ensures var cmd := CommandNamed(name, candidates);
            cmd != Unknown ==> cmd in candidates && CommandName(cmd) == name
  {
    if candidates != [] { FoundByName(name, candidates[1..]); }
  }

  lemma {:induction false} EmptyNamesNothing(candidates: seq<Command>)
    ensures CommandNamed("", candidates) == Unknown
  {
    if candidates != [] {
      FingerprintOf(candidates[0]);
      EmptyNamesNothing(candidates[1..]);
    }
  }
}
