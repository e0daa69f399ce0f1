/** The service-status snapshot and the fold that builds it from the decoded
    body of the status endpoint (status.go). */
module ServiceStatus {
  import opened Wrappers
  import opened Errors

  type Bytes = seq<bv8>

  /** The three states the service reports. The fold does not check values
      against them: any string is copied through. */
  const Green: string := "green"
  const Yellow: string := "yellow"
  const Red: string := "red"

  /** One state per service; a service the response did not mention is "". */
  datatype Status = Status(
    minecraftWebsite: string,
    mojangWebsite: string,
    session: string,
    sessionServer: string,
    authServer: string,
    account: string,
    textures: string,
    api: string)

  /** One element of the JSON array the endpoint answers with. */
  datatype RawStatus = RawStatus(key: string, status: string)

  /** What `json.Unmarshal` made of the body: an error, or the array of records. */
  datatype Decoded = ParseFailure(err: ForeignError) | Records(records: seq<RawStatus>)

  /** The eight fields of `Status`, one per known service. */
  datatype Channel =
    | MinecraftWebsite | MojangWebsite | Session | SessionServer
    | AuthServer | Account | Textures | Api

  /** The zero value `new(Status)` starts from. */
  const Empty: Status := Status("", "", "", "", "", "", "", "")

  /** The key the service uses for a channel: the case label of the `switch`
      that selects it. */
  function KeyOf(c: Channel): string {
    match c
    case MinecraftWebsite => "minecraft.net"
    case MojangWebsite => "mojang.com"
    case Session => "session.minecraft.net"
    case SessionServer => "sessionserver.mojang.com"
    case AuthServer => "authserver.mojang.com"
    case Account => "account.mojang.com"
    case Textures => "textures.minecraft.net"
    case Api => "api.mojang.com"
  }

  /** The `switch state.Key` of the fold: an exact, case-sensitive match
      against the eight keys; anything else matches no channel. */
  function ChannelOf(key: string): (r: Option<Channel>)
    ensures r.Some? ==> KeyOf(r.value) == key
    ensures r.None? <==> forall c: Channel :: KeyOf(c) != key
  {
    if key == "minecraft.net" then Some(MinecraftWebsite)
    else if key == "mojang.com" then Some(MojangWebsite)
    else if key == "session.minecraft.net" then Some(Session)
    else if key == "sessionserver.mojang.com" then Some(SessionServer)
    else if key == "authserver.mojang.com" then Some(AuthServer)
    else if key == "account.mojang.com" then Some(Account)
    else if key == "textures.minecraft.net" then Some(Textures)
    else if key == "api.mojang.com" then Some(Api)
    else None
  }

  /** The field of `s` that channel `c` names. */
  function Get(s: Status, c: Channel): string {
    match c
    case MinecraftWebsite => s.minecraftWebsite
    case MojangWebsite => s.mojangWebsite
    case Session => s.session
    case SessionServer => s.sessionServer
    case AuthServer => s.authServer
    case Account => s.account
    case Textures => s.textures
    case Api => s.api
  }

  /** Each of the eight case labels selects its own channel, and no two
      channels share a label. */
  lemma ChannelOfKeyOf(c: Channel)
    ensures ChannelOf(KeyOf(c)) == Some(c)
    ensures forall d: Channel :: KeyOf(d) == KeyOf(c) ==> d == c
  {
  }

  /** Writes one field and leaves the other seven alone. */
  function With(s: Status, c: Channel, v: string): (r: Status)
    ensures Get(r, c) == v
    ensures forall d: Channel :: d != c ==> Get(r, d) == Get(s, d)
  {
    match c
    case MinecraftWebsite => s.(minecraftWebsite := v)
    case MojangWebsite => s.(mojangWebsite := v)
    case Session => s.(session := v)
    case SessionServer => s.(sessionServer := v)
    case AuthServer => s.(authServer := v)
    case Account => s.(account := v)
    case Textures => s.(textures := v)
    case Api => s.(api := v)
  }

  /** Two snapshots that agree on every channel are the same snapshot. */
  lemma StatusExtensionality(s: Status, t: Status)
    requires forall c: Channel :: Get(s, c) == Get(t, c)
    ensures s == t
  {
    assert Get(s, MinecraftWebsite) == Get(t, MinecraftWebsite);
    assert Get(s, MojangWebsite) == Get(t, MojangWebsite);
    assert Get(s, Session) == Get(t, Session);
    assert Get(s, SessionServer) == Get(t, SessionServer);
    assert Get(s, AuthServer) == Get(t, AuthServer);
    assert Get(s, Account) == Get(t, Account);
    assert Get(s, Textures) == Get(t, Textures);
    assert Get(s, Api) == Get(t, Api);
  }

  /** One step of the loop: a record with a known key writes exactly its own
      field, verbatim; a record with any other key changes nothing. */
  function Apply(s: Status, r: RawStatus): (t: Status)
    ensures forall c: Channel :: KeyOf(c) == r.key ==> Get(t, c) == r.status
    ensures forall c: Channel :: KeyOf(c) != r.key ==> Get(t, c) == Get(s, c)
  {
    match ChannelOf(r.key)
    case Some(c) => With(s, c, r.status)
    case None => s
  }

  /** The status of the last record whose key is `key`, if there is one: the
      last one in the tail if the tail has one, otherwise the head's. */
  function LastStatus(records: seq<RawStatus>, key: string): (r: Option<string>)
    ensures r.None? <==> forall i :: 0 <= i < |records| ==> records[i].key != key
    ensures forall i :: LastAt(records, i, key) ==> r == Some(records[i].status)
  {
    if |records| == 0 then None
    else
      var rest := LastStatus(records[1..], key);
      assert forall i :: 1 <= i < |records| ==> records[i] == records[1..][i - 1];
      assert forall i :: 1 <= i < |records| && LastAt(records, i, key) ==> LastAt(records[1..], i - 1, key);
      if rest.Some? then rest
      else if records[0].key == key then Some(records[0].status)
      else None
  }

  /** Position `i` holds the last record whose key is `key`. */
  predicate LastAt(records: seq<RawStatus>, i: int, key: string) {
    && 0 <= i < |records|
    && records[i].key == key
    && forall j :: i < j < |records| ==> records[j].key != key
  }

  /** The `for _, state := range rawStates` loop of `parseStatusFromBody`,
      started from `start`: each record is applied in turn. */
  function Fold(start: Status, rs: seq<RawStatus>): Status
    decreases rs
  {
    if |rs| == 0 then start else Fold(Apply(start, rs[0]), rs[1..])
  }

  /** After the loop every channel holds the status of the last record carrying
      its key, or keeps its value from `start` if there is none. */
  lemma {:induction false} FoldKeepsLastStatus(rs: seq<RawStatus>, start: Status)
    ensures forall c: Channel :: Get(Fold(start, rs), c) == LastStatus(rs, KeyOf(c)).GetOr(Get(start, c))
  {
    if |rs| > 0 {
      FoldKeepsLastStatus(rs[1..], Apply(start, rs[0]));
    }
  }

  /** `parseStatusFromBody`: a decoder failure is returned as it is; otherwise
      the fold starts from the zero value and never fails. */
  function ParseStatusFromBody(body: Bytes, unmarshal: Bytes -> Decoded): (r: Result<Status, Error>)
    ensures unmarshal(body).ParseFailure? ==> r == Failure(unmarshal(body).err)
    ensures unmarshal(body).Records? ==> r.Success?
    ensures r.Success? ==> forall c: Channel ::
      Get(r.value, c) == LastStatus(unmarshal(body).records, KeyOf(c)).GetOr("")
  {
    match unmarshal(body)
    case ParseFailure(err) => Failure(err)
    case Records(records) => FoldKeepsLastStatus(records, Empty); Success(Fold(Empty, records))
  }
}
