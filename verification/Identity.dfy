/**
 Device pairing, access tokens and revocation. The service is a class over its
 challenge map and the device and token tables; beside it stands a step system in
 which every lock section, clock reading and statement on the tables is a step of its
 own, so that calls interleave.
 */
module Identity {
  import opened Outcomes

  const MAX_CHALLENGES: nat := 1024

  type Code = string
  type DeviceId = string
  type TokenValue = string

  datatype Challenge = Challenge(expiresAt: int, used: bool)
  datatype DeviceState = Pending | Paired | Revoked
  datatype Device = Device(publicKey: string, state: DeviceState)
  datatype Token = Token(device: DeviceId, expiresAt: int)

  datatype Error =
    | ChallengeExpired | ChallengeNotFound | DeviceRevoked | DeviceNotFound | TokenInvalid
    | NameRequired | KeyRequired | PersistFailed

  // --------------------------------------------------- what the operations compute

  /** Challenges that survive an eviction: neither used nor past their expiry. */
  function Evict(challenges: map<Code, Challenge>, now: int): map<Code, Challenge> {
    map code | code in challenges && !challenges[code].used && now <= challenges[code].expiresAt :: challenges[code]
  }

  function WithChallenge(challenges: map<Code, Challenge>, code: Code, now: int, ttl: int): map<Code, Challenge> {
    var kept := Evict(challenges, now);
    (if |kept| >= MAX_CHALLENGES then map[] else kept)[code := Challenge(now + ttl, false)]
  }

  function WithoutExpired(tokens: map<TokenValue, Token>, now: int): map<TokenValue, Token> {
    map value | value in tokens && now <= tokens[value].expiresAt :: tokens[value]
  }

  predicate KeyTaken(devices: map<DeviceId, Device>, key: string) {
    exists id :: id in devices && devices[id].publicKey == key
  }

  /** What AuthorizeToken answers from the two tables at one reading of the clock. */
  function Verdict(tokens: map<TokenValue, Token>, devices: map<DeviceId, Device>, value: TokenValue, now: int): Result<DeviceId, Error> {
    if value !in tokens || now > tokens[value].expiresAt || tokens[value].device !in devices then Err(TokenInvalid)
    else if devices[tokens[value].device].state == Revoked then Err(DeviceRevoked)
    else Ok(tokens[value].device)
  }

  lemma ChallengesAreBounded(challenges: map<Code, Challenge>, code: Code, now: int, ttl: int)
    ensures |WithChallenge(challenges, code, now, ttl)| <= MAX_CHALLENGES
  {
    var kept := Evict(challenges, now);
    var base := if |kept| >= MAX_CHALLENGES then map[] else kept;
    assert base[code := Challenge(now + ttl, false)].Keys == base.Keys + {code};
    assert |base.Keys + {code}| <= |base.Keys| + 1;
  }

  /** The codes that can still be paired with. */
  function Live(challenges: map<Code, Challenge>, now: int): set<Code> {
    set c | c in challenges && !challenges[c].used && now <= challenges[c].expiresAt
  }

  /** At 1024 live codes all of them are dropped; below, a new code joins them. */
  lemma LiveAreKept(challenges: map<Code, Challenge>, code: Code, now: int, ttl: int)
    ensures var t := WithChallenge(challenges, code, now, ttl); var live := Live(challenges, now);
            && t.Keys == (if |live| < 1024 then live else {}) + {code}
            && t[code] == Challenge(now + ttl, false)
            && forall c :: c in t && c != code ==> c in challenges && t[c] == challenges[c]
  {
    assert Evict(challenges, now).Keys == Live(challenges, now);
  }

  // ------------------------------------------------------------------ the service

  class Service {
    var challenges: map<Code, Challenge>
    var devices: map<DeviceId, Device>
    var tokens: map<TokenValue, Token>
    var accessExpiry: int

    /** The UNIQUE and REFERENCES constraints of the tables. */
    ghost predicate Valid()
      reads this
    {
      && (forall d, e :: d in devices && e in devices && devices[d].publicKey == devices[e].publicKey ==> d == e)
      && (forall t :: t in tokens ==> tokens[t].device in devices)
    }

    constructor ()
      ensures Valid()
      ensures challenges == map[] && devices == map[] && tokens == map[] && accessExpiry == 900
    {
      challenges, devices, tokens, accessExpiry := map[], map[], map[], 900;
    }

    method SetAccessExpiry(d: int)
      requires Valid()
      modifies `accessExpiry
      ensures Valid()
      ensures accessExpiry == d
    {
      accessExpiry := d;
    }

    /** code is the generated code, now the reading of the clock. */
    method CreateChallenge(code: Code, now: int, ttl: int)
      requires Valid()
      modifies `challenges
      ensures Valid()
      ensures challenges == WithChallenge(old(challenges), code, now, ttl)
      ensures |challenges| <= 1024
      ensures challenges.Keys == (if |Live(old(challenges), now)| < 1024 then Live(old(challenges), now) else {}) + {code}
      ensures challenges[code] == Challenge(now + ttl, false)
      ensures forall c :: c in challenges && c != code ==> c in old(challenges) && challenges[c] == old(challenges)[c]
    {
      var left := challenges.Keys;
      while left != {}
        invariant left <= old(challenges).Keys
        invariant forall c :: c in challenges <==> c in left || c in Evict(old(challenges), now)
        invariant forall c :: c in challenges ==> c in old(challenges) && challenges[c] == old(challenges)[c]
      {
        var c :| c in left;
        if challenges[c].used || now > challenges[c].expiresAt {
          challenges := challenges - {c};
        }
        left := left - {c};
      }
      assert challenges == Evict(old(challenges), now);
      if |challenges| >= MAX_CHALLENGES {
        challenges := map[];
      }
      challenges := challenges[code := Challenge(now + ttl, false)];
      ChallengesAreBounded(old(challenges), code, now, ttl);
      LiveAreKept(old(challenges), code, now, ttl);
    }

    /**
     Single use: whatever becomes of the call, the code is spent. A device and a token
     are added only for a live code and complete, unique device data.
     */
    method PairDevice(code: Code, name: string, key: string, now: int, device: DeviceId, value: TokenValue) returns (r: Result<TokenValue, Error>)
      requires Valid()
      modifies `challenges, `devices, `tokens
      ensures Valid()
      ensures challenges.Keys == old(challenges).Keys
      ensures forall c :: c in challenges && c != code ==> challenges[c] == old(challenges)[c]
      ensures code in challenges ==> challenges[code].used && challenges[code].expiresAt == old(challenges)[code].expiresAt
      ensures var live := code in old(challenges) && !old(challenges)[code].used && now <= old(challenges)[code].expiresAt;
              var added := live && name != "" && key != "" && device !in old(devices)
                           && (forall id :: id in old(devices) ==> old(devices)[id].publicKey != key);
              && devices == (if added then old(devices)[device := Device(key, Paired)] else old(devices))
              && (r.Ok? <==> added && value !in WithoutExpired(old(tokens), now))
              && tokens == (if r.Ok? then WithoutExpired(old(tokens), now)[value := Token(device, now + accessExpiry)]
                            else if added then WithoutExpired(old(tokens), now) else old(tokens))
      ensures r == (if code !in old(challenges) then Err(ChallengeNotFound)
                    else if old(challenges)[code].used || now > old(challenges)[code].expiresAt then Err(ChallengeExpired)
                    else if name == "" then Err(NameRequired)
                    else if key == "" then Err(KeyRequired)
                    else if r.Ok? then Ok(value) else Err(PersistFailed))
    {
      if code !in challenges {
        return Err(ChallengeNotFound);
      }
      var ch := challenges[code];
      if ch.used {
        return Err(ChallengeExpired);
      }
      challenges := challenges[code := ch.(used := true)];
      if now > ch.expiresAt {
        return Err(ChallengeExpired);
      }
      if name == "" {
        return Err(NameRequired);
      }
      if key == "" {
        return Err(KeyRequired);
      }
      if device in devices || KeyTaken(devices, key) {
        return Err(PersistFailed);
      }
      devices := devices[device := Device(key, Paired)];
      r := IssueToken(device, now, accessExpiry, value);
    }

    /** Prunes expired tokens, then adds one. */
    method IssueToken(device: DeviceId, now: int, ttl: int, value: TokenValue) returns (r: Result<TokenValue, Error>)
      requires Valid() && device in devices
      modifies `tokens
      ensures Valid()
      ensures r == if value in WithoutExpired(old(tokens), now) then Err(PersistFailed) else Ok(value)
      ensures tokens == if r.Ok? then WithoutExpired(old(tokens), now)[value := Token(device, now + ttl)]
                        else WithoutExpired(old(tokens), now)
      ensures r.Ok? <==> (value in old(tokens) ==> old(tokens)[value].expiresAt < now)
      ensures forall v :: v in tokens <==> (v in old(tokens) && now <= old(tokens)[v].expiresAt) || (r.Ok? && v == value)
      ensures forall v :: v in tokens ==> tokens[v] == if r.Ok? && v == value then Token(device, now + ttl) else old(tokens)[v]
    {
      tokens := WithoutExpired(tokens, now);
      if value in tokens {
        return Err(PersistFailed);
      }
      tokens := tokens[value := Token(device, now + ttl)];
      return Ok(value);
    }

    method RefreshToken(key: string, now: int, value: TokenValue) returns (r: Result<TokenValue, Error>)
      requires Valid()
      modifies `tokens
      ensures Valid()
      ensures (forall id :: id in devices ==> devices[id].publicKey != key) ==> r == Err(DeviceNotFound) && tokens == old(tokens)
      ensures forall id :: id in devices && devices[id].publicKey == key ==>
                if devices[id].state == Revoked then r == Err(DeviceRevoked) && tokens == old(tokens)
                else if value in WithoutExpired(old(tokens), now) then r == Err(PersistFailed) && tokens == WithoutExpired(old(tokens), now)
                else r == Ok(value) && tokens == WithoutExpired(old(tokens), now)[value := Token(id, now + accessExpiry)]
    {
      if !KeyTaken(devices, key) {
        return Err(DeviceNotFound);
      }
      var id :| id in devices && devices[id].publicKey == key;
      if devices[id].state == Revoked {
        return Err(DeviceRevoked);
      }
      r := IssueToken(id, now, accessExpiry, value);
    }

    method AuthorizeToken(value: TokenValue, now: int) returns (r: Result<DeviceId, Error>)
      ensures r == Verdict(tokens, devices, value, now)
      ensures forall d :: r == Ok(d) <==>
                && value in tokens && now <= tokens[value].expiresAt && tokens[value].device == d
                && d in devices && (devices[d].state == Pending || devices[d].state == Paired)
      ensures r == Err(DeviceRevoked) <==>
                && value in tokens && now <= tokens[value].expiresAt
                && tokens[value].device in devices && devices[tokens[value].device].state == Revoked
      ensures r.Err? ==> r.error == DeviceRevoked || r.error == TokenInvalid
    {
      if value !in tokens {
        return Err(TokenInvalid);
      }
      var tok := tokens[value];
      if now > tok.expiresAt {
        return Err(TokenInvalid);
      }
      if tok.device !in devices {
        return Err(TokenInvalid);
      }
      if devices[tok.device].state == Revoked {
        return Err(DeviceRevoked);
      }
      return Ok(tok.device);
    }

    method RevokeDevice(id: DeviceId) returns (r: Option<Error>)
      requires Valid()
      modifies `devices
      ensures Valid()
      ensures r == if id in old(devices) then None else Some(DeviceNotFound)
      ensures devices == if id in old(devices) then old(devices)[id := old(devices)[id].(state := Revoked)] else old(devices)
    {
      if id !in devices {
        return Some(DeviceNotFound);
      }
      devices := devices[id := devices[id].(state := Revoked)];
      return None;
    }
  }

  // -------------------------------------------------------- calls that interleave

  /** Where a call stands between two of its steps; now is the reading it took of the clock. */
  datatype Flight =
    | Claimed(code: Code, now: int, ttl: int)
    | Found(device: DeviceId)
    | Issuing(device: DeviceId, now: int, ttl: int)
    | Pruned(device: DeviceId, now: int, ttl: int)
    | Reading(value: TokenValue, now: int)
    | Checking(device: DeviceId, value: TokenValue, now: int)

  type CallId = nat

  /** A successful authorisation: the token shown, the reading of the clock, the device. */
  datatype Grant = Grant(value: TokenValue, now: int, device: DeviceId)

  /**
   issued is what a token table would hold from which nothing is ever deleted; pairedBy
   says which code added a device; grants lists the authorisations so far; pruned is the
   latest reading of the clock with which a call has deleted tokens.
   */
  datatype State = State(
    clock: int,
    accessExpiry: int,
    challenges: map<Code, Challenge>,
    created: set<Code>,
    devices: map<DeviceId, Device>,
    tokens: map<TokenValue, Token>,
    issued: map<TokenValue, Token>,
    calls: map<CallId, Flight>,
    pairedBy: map<DeviceId, Code>,
    grants: seq<Grant>,
    pruned: Option<int>)

  datatype Action =
    | Tick(elapsed: nat)
    | SetExpiry(d: int)
    | Create(code: Code, now: int, ttl: int)
    | Claim(call: CallId, claimed: Code)
    | Register(call: CallId, name: string, key: string, device: DeviceId)
    | Lookup(call: CallId, publicKey: string, found: DeviceId)
    | ReadClock(call: CallId)
    | Prune(call: CallId)
    | Insert(call: CallId, value: TokenValue)
    | Revoke(revoked: DeviceId)
    | Authorize(call: CallId, presented: TokenValue)
    | FetchToken(call: CallId)
    | FetchDevice(call: CallId)

  function Init(now: int): State {
    State(now, 900, map[], {}, map[], map[], map[], map[], map[], [], None)
  }

  function CreateOn(s: State, code: Code, now: int, ttl: int): State {
    if code in s.created || now > s.clock then s
    else s.(challenges := WithChallenge(s.challenges, code, now, ttl), created := s.created + {code})
  }

  /** The locked section of PairDevice. */
  function ClaimOn(s: State, call: CallId, code: Code): State {
    if call in s.calls || code !in s.challenges || s.challenges[code].used then s
    else
      var spent := s.challenges[code := s.challenges[code].(used := true)];
      if s.clock > s.challenges[code].expiresAt then s.(challenges := spent)
      else s.(challenges := spent, calls := s.calls[call := Claimed(code, s.clock, s.accessExpiry)])
  }

  function RegisterOn(s: State, call: CallId, name: string, key: string, device: DeviceId): State {
    if call !in s.calls || !s.calls[call].Claimed? then s
    else
      var f := s.calls[call];
      if name == "" || key == "" || device in s.devices || KeyTaken(s.devices, key) then s.(calls := s.calls - {call})
      else s.(devices := s.devices[device := Device(key, Paired)],
              calls := s.calls[call := Issuing(device, f.now, f.ttl)],
              pairedBy := s.pairedBy[device := f.code])
  }

  function LookupOn(s: State, call: CallId, key: string, found: DeviceId): State {
    if call in s.calls || found !in s.devices || s.devices[found].publicKey != key || s.devices[found].state == Revoked then s
    else s.(calls := s.calls[call := Found(found)])
  }

  function ReadClockOn(s: State, call: CallId): State {
    if call !in s.calls || !s.calls[call].Found? then s
    else s.(calls := s.calls[call := Issuing(s.calls[call].device, s.clock, s.accessExpiry)])
  }

  function PruneOn(s: State, call: CallId): State {
    if call !in s.calls || !s.calls[call].Issuing? then s
    else
      var f := s.calls[call];
      s.(tokens := WithoutExpired(s.tokens, f.now), calls := s.calls[call := Pruned(f.device, f.now, f.ttl)],
          pruned := Some(if s.pruned.Some? then Max(s.pruned.value, f.now) else f.now))
  }

  /** Token values are fresh: 12 random bytes never repeat. */
  function InsertOn(s: State, call: CallId, value: TokenValue): State {
    if call !in s.calls || !s.calls[call].Pruned? || value in s.issued then s
    else
      var f := s.calls[call];
      var t := Token(f.device, f.now + f.ttl);
      s.(tokens := s.tokens[value := t], issued := s.issued[value := t], calls := s.calls - {call})
  }

  function RevokeOn(s: State, id: DeviceId): State {
    if id !in s.devices then s else s.(devices := s.devices[id := s.devices[id].(state := Revoked)])
  }

  function AuthorizeOn(s: State, call: CallId, value: TokenValue): State {
    if call in s.calls then s else s.(calls := s.calls[call := Reading(value, s.clock)])
  }

  function FetchTokenOn(s: State, call: CallId): State {
    if call !in s.calls || !s.calls[call].Reading? then s
    else
      var f := s.calls[call];
      if f.value !in s.tokens || f.now > s.tokens[f.value].expiresAt then s.(calls := s.calls - {call})
      else s.(calls := s.calls[call := Checking(s.tokens[f.value].device, f.value, f.now)])
  }

  function FetchDeviceOn(s: State, call: CallId): State {
    if call !in s.calls || !s.calls[call].Checking? then s
    else
      var f := s.calls[call];
      var id := f.device;
      var done := s.(calls := s.calls - {call});
      if id !in s.devices || s.devices[id].state == Revoked then done else done.(grants := s.grants + [Grant(f.value, f.now, id)])
  }

  function Step(s: State, a: Action): State {
    match a
    case Tick(elapsed) => s.(clock := s.clock + elapsed)
    case SetExpiry(d) => s.(accessExpiry := d)
    case Create(code, now, ttl) => CreateOn(s, code, now, ttl)
    case Claim(call, code) => ClaimOn(s, call, code)
    case Register(call, name, key, device) => RegisterOn(s, call, name, key, device)
    case Lookup(call, key, found) => LookupOn(s, call, key, found)
    case ReadClock(call) => ReadClockOn(s, call)
    case Prune(call) => PruneOn(s, call)
    case Insert(call, value) => InsertOn(s, call, value)
    case Revoke(id) => RevokeOn(s, id)
    case Authorize(call, value) => AuthorizeOn(s, call, value)
    case FetchToken(call) => FetchTokenOn(s, call)
    case FetchDevice(call) => FetchDeviceOn(s, call)
  }

  function Exec(s: State, run: seq<Action>): State
    decreases |run|
  {
    if run == [] then s else Exec(Step(s, run[0]), run[1..])
  }

  // ------------------------------------------- calls whose steps follow one another

  lemma Exec2(s: State, a: Action, b: Action)
    ensures Exec(s, [a, b]) == Step(Step(s, a), b)
  {
    assert [a, b][1..] == [b] && [b][1..] == [];
    assert Exec(Step(s, a), [b]) == Exec(Step(Step(s, a), b), []);
  }

  lemma Exec3(s: State, a: Action, b: Action, c: Action)
    ensures Exec(s, [a, b, c]) == Step(Step(Step(s, a), b), c)
  {
    assert [a, b, c][1..] == [b, c];
    Exec2(Step(s, a), b, c);
  }

  lemma Exec4(s: State, a: Action, b: Action, c: Action, d: Action)
    ensures Exec(s, [a, b, c, d]) == Step(Step(Step(Step(s, a), b), c), d)
  {
    assert [a, b, c, d][1..] == [b, c, d];
    Exec3(Step(s, a), b, c, d);
  }

  /** An authorisation with nothing in between adds the grant exactly when the verdict is the device, and changes nothing else. */
  lemma AuthorizeAtOnce(s: State, call: CallId, value: TokenValue)
    requires call !in s.calls
    ensures var t := Exec(s, [Authorize(call, value), FetchToken(call), FetchDevice(call)]);
            && t == s.(grants := t.grants)
            && (match Verdict(s.tokens, s.devices, value, s.clock)
                case Ok(d) => t.grants == s.grants + [Grant(value, s.clock, d)]
                case Err(_) => t.grants == s.grants)
  {
    Exec3(s, Authorize(call, value), FetchToken(call), FetchDevice(call));
    FetchAtOnce(s, call, value);
    if value in s.tokens && s.clock <= s.tokens[value].expiresAt {
      CheckAtOnce(s, call, Checking(s.tokens[value].device, value, s.clock));
    }
  }

  lemma FetchAtOnce(s: State, call: CallId, value: TokenValue)
    requires call !in s.calls
    ensures FetchTokenOn(AuthorizeOn(s, call, value), call)
            == if value in s.tokens && s.clock <= s.tokens[value].expiresAt
               then s.(calls := s.calls[call := Checking(s.tokens[value].device, value, s.clock)])
               else s
  {
    var calls := s.calls[call := Reading(value, s.clock)];
    assert calls - {call} == s.calls;
    if value in s.tokens {
      var f := Checking(s.tokens[value].device, value, s.clock);
      assert calls[call := f] == s.calls[call := f];
    }
  }

  lemma CheckAtOnce(s: State, call: CallId, f: Flight)
    requires call !in s.calls && f.Checking?
    ensures FetchDeviceOn(s.(calls := s.calls[call := f]), call)
            == if f.device in s.devices && s.devices[f.device].state != Revoked then s.(grants := s.grants + [Grant(f.value, f.now, f.device)])
               else s
  {
    var s2 := s.(calls := s.calls[call := f]);
    assert s2.calls - {call} == s.calls;
  }

  /** Pairing with nothing in between: a live code and complete, new data add the device and its one token. */
  lemma PairAtOnce(s: State, call: CallId, code: Code, name: string, key: string, device: DeviceId, value: TokenValue)
    requires call !in s.calls && value !in s.issued
    requires code in s.challenges && !s.challenges[code].used && s.clock <= s.challenges[code].expiresAt
    requires name != "" && key != "" && device !in s.devices && (forall id :: id in s.devices ==> s.devices[id].publicKey != key)
    ensures var t := Exec(s, [Claim(call, code), Register(call, name, key, device), Prune(call), Insert(call, value)]);
            && t.challenges == s.challenges[code := s.challenges[code].(used := true)]
            && t.devices == s.devices[device := Device(key, Paired)] && t.pairedBy == s.pairedBy[device := code]
            && t.tokens == WithoutExpired(s.tokens, s.clock)[value := Token(device, s.clock + s.accessExpiry)]
            && t.calls == s.calls && t.grants == s.grants && t.clock == s.clock && t.accessExpiry == s.accessExpiry
  {
    Exec4(s, Claim(call, code), Register(call, name, key, device), Prune(call), Insert(call, value));
    var s1 := ClaimOn(s, call, code);
    assert s1.calls == s.calls[call := Claimed(code, s.clock, s.accessExpiry)] && !KeyTaken(s1.devices, key);
    var s2 := RegisterOn(s1, call, name, key, device);
    assert s2.calls[call] == Issuing(device, s.clock, s.accessExpiry);
    var s3 := PruneOn(s2, call);
    assert s3.calls[call] == Pruned(device, s.clock, s.accessExpiry);
    assert s3.calls - {call} == s.calls;
  }

  /** A refresh with nothing in between: a device that is not revoked gets one token more. */
  lemma RefreshAtOnce(s: State, call: CallId, key: string, device: DeviceId, value: TokenValue)
    requires call !in s.calls && value !in s.issued
    requires device in s.devices && s.devices[device].publicKey == key && s.devices[device].state != Revoked
    ensures var t := Exec(s, [Lookup(call, key, device), ReadClock(call), Prune(call), Insert(call, value)]);
            && t.tokens == WithoutExpired(s.tokens, s.clock)[value := Token(device, s.clock + s.accessExpiry)]
            && t.devices == s.devices && t.challenges == s.challenges && t.calls == s.calls && t.grants == s.grants
  {
    Exec4(s, Lookup(call, key, device), ReadClock(call), Prune(call), Insert(call, value));
    var s1 := LookupOn(s, call, key, device);
    assert s1.calls[call] == Found(device);
    var s2 := ReadClockOn(s1, call);
    assert s2.calls[call] == Issuing(device, s.clock, s.accessExpiry);
    var s3 := PruneOn(s2, call);
    assert s3.calls - {call} == s.calls;
  }

  /** The steps that are whole calls, and the clock. */
  lemma SingleStepsAct(s: State, elapsed: nat, d: int, id: DeviceId, code: Code, ttl: int)
    ensures Step(s, Tick(elapsed)) == s.(clock := s.clock + elapsed)
    ensures Step(s, SetExpiry(d)) == s.(accessExpiry := d)
    ensures var t := Step(s, Revoke(id));
            && t.devices.Keys == s.devices.Keys && t.tokens == s.tokens && t.calls == s.calls
            && forall e :: e in s.devices ==> t.devices[e] == if e == id then Device(s.devices[e].publicKey, Revoked) else s.devices[e]
    ensures code !in s.created ==>
              var t := Step(s, Create(code, s.clock, ttl));
              t == s.(challenges := WithChallenge(s.challenges, code, s.clock, ttl), created := s.created + {code})
  {
  }

  /** The first pairing of all, with a code just created. */
  function FirstPairing(start: int, code: Code, ttl: nat, name: string, key: string, device: DeviceId, value: TokenValue): State {
    Exec(Step(Init(start), Create(code, start, ttl)),
         [Claim(0, code), Register(0, name, key, device), Prune(0), Insert(0, value)])
  }

  lemma FirstPairingAdds(start: int, code: Code, ttl: nat, name: string, key: string, device: DeviceId, value: TokenValue)
    requires name != "" && key != ""
    ensures var s := FirstPairing(start, code, ttl, name, key, device, value);
            && s.devices == map[device := Device(key, Paired)] && s.tokens == map[value := Token(device, start + 900)]
            && s.calls == map[] && s.grants == [] && s.clock == start
  {
    var c := Step(Init(start), Create(code, start, ttl));
    assert c.devices == map[] && c.tokens == map[] && c.issued == map[] && c.calls == map[];
    PairAtOnce(c, 0, code, name, key, device, value);
  }

  /** The whole way: a paired device is authorised for fifteen minutes and until it is revoked. */
  lemma PairedThenAuthorized(start: int, code: Code, ttl: nat, name: string, key: string, device: DeviceId, value: TokenValue, elapsed: nat, revoked: bool)
    requires name != "" && key != ""
    ensures var s := Step(FirstPairing(start, code, ttl, name, key, device, value), Tick(elapsed));
            var t := if revoked then Step(s, Revoke(device)) else s;
            Exec(t, [Authorize(1, value), FetchToken(1), FetchDevice(1)]).grants
            == if elapsed <= 900 && !revoked then [Grant(value, start + elapsed, device)] else []
  {
    FirstPairingAdds(start, code, ttl, name, key, device, value);
    AuthorizedUnlessRevoked(FirstPairing(start, code, ttl, name, key, device, value), device, key, value, start, elapsed, revoked);
  }

  lemma AuthorizedUnlessRevoked(s: State, device: DeviceId, key: string, value: TokenValue, start: int, elapsed: nat, revoked: bool)
    requires s.devices == map[device := Device(key, Paired)] && s.tokens == map[value := Token(device, start + 900)]
    requires s.calls == map[] && s.grants == [] && s.clock == start
    ensures var later := Step(s, Tick(elapsed));
            var t := if revoked then Step(later, Revoke(device)) else later;
            Exec(t, [Authorize(1, value), FetchToken(1), FetchDevice(1)]).grants
            == if elapsed <= 900 && !revoked then [Grant(value, start + elapsed, device)] else []
  {
    var later := Step(s, Tick(elapsed));
    var t := if revoked then Step(later, Revoke(device)) else later;
    AuthorizeAtOnce(t, 1, value);
    if revoked {
      assert t.devices[device].state == Revoked;
    }
  }

  /** What is refused: a code that is unknown, used or past its expiry, incomplete or known device data, a revoked or unknown device, a device whose row is gone. */
  lemma RefusalsAct(s: State, call: CallId, code: Code, name: string, key: string, device: DeviceId)
    ensures code !in s.challenges || s.challenges[code].used ==> Step(s, Claim(call, code)) == s
    ensures code in s.challenges && s.challenges[code].expiresAt < s.clock ==> Step(s, Claim(call, code)).calls == s.calls
    ensures call in s.calls && s.calls[call].Claimed?
            && (name == "" || key == "" || device in s.devices || exists id :: id in s.devices && s.devices[id].publicKey == key) ==>
              Step(s, Register(call, name, key, device)) == s.(calls := s.calls - {call})
    ensures device !in s.devices || s.devices[device].publicKey != key || s.devices[device].state == Revoked ==>
              Step(s, Lookup(call, key, device)) == s
  {
    ClaimRefused(s, call, code);
    RegisterRefused(s, call, name, key, device);
  }

  lemma ClaimRefused(s: State, call: CallId, code: Code)
    ensures code !in s.challenges || s.challenges[code].used ==> Step(s, Claim(call, code)) == s
    ensures code in s.challenges && s.challenges[code].expiresAt < s.clock ==> Step(s, Claim(call, code)).calls == s.calls
  {
  }

  lemma RegisterRefused(s: State, call: CallId, name: string, key: string, device: DeviceId)
    ensures call in s.calls && s.calls[call].Claimed?
            && (name == "" || key == "" || device in s.devices || exists id :: id in s.devices && s.devices[id].publicKey == key) ==>
              Step(s, Register(call, name, key, device)) == s.(calls := s.calls - {call})
  {
  }

  /** In every reachable state no two devices share a public key. */
  lemma {:induction false} KeysStayUnique(s: State, run: seq<Action>)
    requires UniqueKeys(s.devices)
    ensures UniqueKeys(Exec(s, run).devices)
    decreases |run|
  {
    if run != [] {
      KeysStep(s, run[0]);
      KeysStayUnique(Step(s, run[0]), run[1..]);
    }
  }

  ghost predicate UniqueKeys(devices: map<DeviceId, Device>) {
    forall d, e :: d in devices && e in devices && devices[d].publicKey == devices[e].publicKey ==> d == e
  }

  lemma KeysStep(s: State, a: Action)
    requires UniqueKeys(s.devices)
    ensures UniqueKeys(Step(s, a).devices)
  {
    match a {
      case Register(call, name, key, device) => RegisterKeepsKeys(s, call, name, key, device);
      case Revoke(_) =>
      case FetchDevice(_) =>
      case _ => KeepsDevices(s, a);
    }
  }

  lemma RegisterKeepsKeys(s: State, call: CallId, name: string, key: string, device: DeviceId)
    requires UniqueKeys(s.devices)
    ensures UniqueKeys(RegisterOn(s, call, name, key, device).devices)
  {
    var t := RegisterOn(s, call, name, key, device);
    if t.devices != s.devices {
      assert t.devices == s.devices[device := Device(key, Paired)] && !KeyTaken(s.devices, key);
    }
  }

  // ---------------------------------------------------------- pruning is invisible

  /** The reading a call carries, where it carries one. */
  predicate HasReading(f: Flight) {
    !f.Found?
  }

  predicate HasDevice(f: Flight) {
    f.Found? || f.Issuing? || f.Pruned? || f.Checking?
  }

  ghost predicate CallInStep(s: State, f: Flight) {
    && (HasReading(f) ==> f.now <= s.clock)
    && (HasDevice(f) ==> f.device in s.devices)
    && (f.Checking? ==> Backed(s, f.value, f.now, f.device))
  }

  /** The token was issued to that device and alive at that reading of the clock. */
  ghost predicate Backed(s: State, value: TokenValue, now: int, device: DeviceId) {
    value in s.issued && s.issued[value].device == device && now <= s.issued[value].expiresAt
  }

  /** The token's life had ended at the latest reading with which tokens were deleted. */
  predicate Outlived(s: State, t: Token) {
    s.pruned.Some? && t.expiresAt < s.pruned.value
  }

  /** Only tokens whose life had ended are missing from the table. */
  ghost predicate OnlyExpiredPruned(s: State) {
    && (forall k :: k in s.calls ==> CallInStep(s, s.calls[k]))
    && (forall v :: v in s.tokens ==> v in s.issued && s.issued[v] == s.tokens[v])
    && (forall v :: v in s.issued ==> s.issued[v].device in s.devices && (v in s.tokens || Outlived(s, s.issued[v])))
    && (s.pruned.Some? ==> s.pruned.value <= s.clock)
    && (forall g :: g in s.grants ==> Backed(s, g.value, g.now, g.device) && g.now <= s.clock)
  }

  lemma CallMoves(s: State, call: CallId, f: Flight)
    requires OnlyExpiredPruned(s) && CallInStep(s, f)
    ensures OnlyExpiredPruned(s.(calls := s.calls[call := f]))
  {
    var t := s.(calls := s.calls[call := f]);
    forall k | k in t.calls ensures CallInStep(t, t.calls[k]) {
      assert CallInStep(s, t.calls[k]);
    }
  }

  lemma CallEnds(s: State, call: CallId)
    requires OnlyExpiredPruned(s)
    ensures OnlyExpiredPruned(s.(calls := s.calls - {call}))
  {
    var t := s.(calls := s.calls - {call});
    forall k | k in t.calls ensures CallInStep(t, t.calls[k]) {
      assert CallInStep(s, t.calls[k]);
    }
  }

  lemma PruneKeepsLive(s: State, call: CallId)
    requires OnlyExpiredPruned(s)
    ensures OnlyExpiredPruned(PruneOn(s, call))
  {
    var t := PruneOn(s, call);
    if t != s {
      var now := s.calls[call].now;
      assert CallInStep(s, s.calls[call]) && t.pruned.value >= now;
      forall v | v in s.issued && v !in t.tokens ensures Outlived(t, s.issued[v]) {
        assert v in s.tokens ==> s.tokens[v].expiresAt < now;
      }
      forall k | k in t.calls ensures CallInStep(t, t.calls[k]) {
        assert CallInStep(s, s.calls[k]);
      }
    }
  }

  lemma InsertKeepsLive(s: State, call: CallId, value: TokenValue)
    requires OnlyExpiredPruned(s)
    ensures OnlyExpiredPruned(InsertOn(s, call, value))
  {
  }

  lemma RegisterKeepsLive(s: State, call: CallId, name: string, key: string, device: DeviceId)
    requires OnlyExpiredPruned(s)
    ensures OnlyExpiredPruned(RegisterOn(s, call, name, key, device))
  {
    if call in s.calls && s.calls[call].Claimed? {
      var f := s.calls[call];
      assert CallInStep(s, f);
      if name == "" || key == "" || device in s.devices || KeyTaken(s.devices, key) {
        CallEnds(s, call);
      } else {
        var added := s.(devices := s.devices[device := Device(key, Paired)], pairedBy := s.pairedBy[device := f.code]);
        forall k | k in added.calls ensures CallInStep(added, added.calls[k]) {
          assert CallInStep(s, added.calls[k]);
        }
        CallMoves(added, call, Issuing(device, f.now, f.ttl));
      }
    }
  }

  lemma ClaimKeepsLive(s: State, call: CallId, code: Code)
    requires OnlyExpiredPruned(s)
    ensures OnlyExpiredPruned(ClaimOn(s, call, code))
  {
    if call !in s.calls && code in s.challenges && !s.challenges[code].used {
      var spent := s.(challenges := s.challenges[code := s.challenges[code].(used := true)]);
      assert forall f :: CallInStep(s, f) ==> CallInStep(spent, f);
      CallMoves(spent, call, Claimed(code, s.clock, s.accessExpiry));
    }
  }

  lemma LookupKeepsLive(s: State, call: CallId, key: string, found: DeviceId)
    requires OnlyExpiredPruned(s)
    ensures OnlyExpiredPruned(LookupOn(s, call, key, found))
  {
    if found in s.devices {
      CallMoves(s, call, Found(found));
    }
  }

  lemma ReadClockKeepsLive(s: State, call: CallId)
    requires OnlyExpiredPruned(s)
    ensures OnlyExpiredPruned(ReadClockOn(s, call))
  {
    if call in s.calls && s.calls[call].Found? {
      assert CallInStep(s, s.calls[call]);
      CallMoves(s, call, Issuing(s.calls[call].device, s.clock, s.accessExpiry));
    }
  }

  lemma FetchTokenKeepsLive(s: State, call: CallId)
    requires OnlyExpiredPruned(s)
    ensures OnlyExpiredPruned(FetchTokenOn(s, call))
  {
    if call in s.calls && s.calls[call].Reading? {
      var f := s.calls[call];
      assert CallInStep(s, f);
      if f.value !in s.tokens || f.now > s.tokens[f.value].expiresAt {
        CallEnds(s, call);
      } else {
        CallMoves(s, call, Checking(s.tokens[f.value].device, f.value, f.now));
      }
    }
  }

  lemma FetchDeviceKeepsLive(s: State, call: CallId)
    requires OnlyExpiredPruned(s)
    ensures OnlyExpiredPruned(FetchDeviceOn(s, call))
  {
    if call in s.calls && s.calls[call].Checking? {
      assert CallInStep(s, s.calls[call]);
      CallEnds(s, call);
    }
  }

  lemma QuietKeepsLive(s: State, a: Action)
    requires OnlyExpiredPruned(s)
    requires a.Tick? || a.SetExpiry? || a.Create? || a.Revoke?
    ensures OnlyExpiredPruned(Step(s, a))
  {
  }

  lemma OnlyExpiredPrunedStep(s: State, a: Action)
    requires OnlyExpiredPruned(s)
    ensures OnlyExpiredPruned(Step(s, a))
  {
    match a {
      case Prune(call) => PruneKeepsLive(s, call);
      case Insert(call, value) => InsertKeepsLive(s, call, value);
      case Register(call, name, key, device) => RegisterKeepsLive(s, call, name, key, device);
      case Claim(call, code) => ClaimKeepsLive(s, call, code);
      case Lookup(call, key, found) => LookupKeepsLive(s, call, key, found);
      case ReadClock(call) => ReadClockKeepsLive(s, call);
      case Authorize(call, value) => CallMoves(s, call, Reading(value, s.clock));
      case FetchToken(call) => FetchTokenKeepsLive(s, call);
      case FetchDevice(call) => FetchDeviceKeepsLive(s, call);
      case Tick(_) => QuietKeepsLive(s, a);
      case SetExpiry(_) => QuietKeepsLive(s, a);
      case Create(_, _, _) => QuietKeepsLive(s, a);
      case Revoke(_) => QuietKeepsLive(s, a);
    }
  }

  lemma {:induction false} OnlyExpiredPrunedRun(s: State, run: seq<Action>)
    requires OnlyExpiredPruned(s)
    ensures OnlyExpiredPruned(Exec(s, run))
    decreases |run|
  {
    if run != [] {
      OnlyExpiredPrunedStep(s, run[0]);
      OnlyExpiredPrunedRun(Step(s, run[0]), run[1..]);
    }
  }

  /**
   Pruning is invisible: in every reachable state every token gets, at the current time,
   the verdict it would get from a table that never deletes.
   */
  lemma PruningIsInvisible(start: int, run: seq<Action>, value: TokenValue)
    ensures var s := Exec(Init(start), run);
            Verdict(s.tokens, s.devices, value, s.clock) == Verdict(s.issued, s.devices, value, s.clock)
  {
    OnlyExpiredPrunedRun(Init(start), run);
  }

  /** A reading of the clock no earlier than any with which tokens were deleted sees no difference, for any token. */
  lemma NoEarlierThanPrunes(start: int, run: seq<Action>, reading: int)
    requires var s := Exec(Init(start), run); s.pruned.Some? ==> reading >= s.pruned.value
    ensures var s := Exec(Init(start), run);
            forall value :: Verdict(s.tokens, s.devices, value, reading) == Verdict(s.issued, s.devices, value, reading)
  {
    OnlyExpiredPrunedRun(Init(start), run);
  }

  /**
   A call that read the clock earlier can see the difference, exactly when the token
   was pruned although it was alive at that reading.
   */
  lemma StaleReadingIff(start: int, run: seq<Action>, value: TokenValue, reading: int)
    ensures var s := Exec(Init(start), run);
            Verdict(s.tokens, s.devices, value, reading) == Verdict(s.issued, s.devices, value, reading)
            <==> !(value in s.issued && value !in s.tokens && reading <= s.issued[value].expiresAt)
  {
    OnlyExpiredPrunedRun(Init(start), run);
  }

  /**
   And that can happen to a call in flight: with a token alive when call k read the
   clock and dead when call p read it, k goes on if it fetches the token before p
   prunes, and is refused if it fetches it after.
   */
  lemma OrderOfPruneMatters(s: State, k: CallId, p: CallId)
    requires k in s.calls && s.calls[k].Reading? && s.calls[k].value in s.tokens
    requires p in s.calls && s.calls[p].Issuing?
    requires s.calls[k].now <= s.tokens[s.calls[k].value].expiresAt < s.calls[p].now
    ensures var t := PruneOn(FetchTokenOn(s, k), p); k in t.calls && t.calls[k].Checking?
    ensures k !in FetchTokenOn(PruneOn(s, p), k).calls
  {
    var pruned := PruneOn(s, p);
    assert s.calls[k].value !in pruned.tokens && pruned.calls[k] == s.calls[k];
  }

  /** Whoever was authorised showed a token issued to that device and alive when the call read the clock. */
  lemma GrantsAreBacked(start: int, run: seq<Action>, g: Grant)
    requires g in Exec(Init(start), run).grants
    ensures var s := Exec(Init(start), run);
            Backed(s, g.value, g.now, g.device) && g.now <= s.clock && g.device in s.devices
  {
    OnlyExpiredPrunedRun(Init(start), run);
  }

  // -------------------------------------------- the same run, with nothing ever deleted

  /** The state of a service whose table keeps every token. */
  function Keeping(s: State): State {
    s.(tokens := s.issued)
  }

  /** The same step on that table: a prune deletes nothing. */
  function StepKeeping(s: State, a: Action): State {
    if a.Prune? then PruneOn(s, a.call).(tokens := s.tokens) else Step(s, a)
  }

  function ExecKeeping(s: State, run: seq<Action>): State
    decreases |run|
  {
    if run == [] then s else ExecKeeping(StepKeeping(s, run[0]), run[1..])
  }

  /** A call that fetches its token has read the clock no earlier than any call that has pruned. */
  predicate Timely(s: State, a: Action) {
    a.FetchToken? && a.call in s.calls && s.calls[a.call].Reading? && s.pruned.Some? ==> s.calls[a.call].now >= s.pruned.value
  }

  ghost predicate AllTimely(s: State, run: seq<Action>)
    decreases |run|
  {
    run == [] || (Timely(s, run[0]) && AllTimely(Step(s, run[0]), run[1..]))
  }

  lemma FetchIsSame(s: State, call: CallId)
    requires OnlyExpiredPruned(s) && Timely(s, FetchToken(call))
    ensures Keeping(FetchTokenOn(s, call)) == FetchTokenOn(Keeping(s), call)
  {
    if call in s.calls && s.calls[call].Reading? {
      var f := s.calls[call];
      assert f.value in s.issued && f.value !in s.tokens ==> Outlived(s, s.issued[f.value]);
    }
  }

  lemma StepIsSame(s: State, a: Action)
    requires OnlyExpiredPruned(s) && Timely(s, a)
    ensures Keeping(Step(s, a)) == StepKeeping(Keeping(s), a)
  {
    match a {
      case FetchToken(call) => FetchIsSame(s, call);
      case Prune(_) =>
      case Insert(_, _) =>
      case _ => TableAside(s, a);
    }
  }

  /** No other step looks at the token table. */
  lemma TableAside(s: State, a: Action)
    requires !a.FetchToken? && !a.Prune? && !a.Insert?
    ensures Keeping(Step(s, a)) == Step(Keeping(s), a)
  {
    if a.Claim? {
      ClaimAside(s, a.call, a.claimed);
    } else if a.Create? {
      CreateAside(s, a.code, a.now, a.ttl);
    } else if a.Register? {
      RegisterAside(s, a.call, a.name, a.key, a.device);
    } else if a.Lookup? {
      LookupAside(s, a.call, a.publicKey, a.found);
    }
  }

  lemma ClaimAside(s: State, call: CallId, code: Code)
    ensures Keeping(ClaimOn(s, call, code)) == ClaimOn(Keeping(s), call, code)
  {
  }

  lemma CreateAside(s: State, code: Code, now: int, ttl: int)
    ensures Keeping(CreateOn(s, code, now, ttl)) == CreateOn(Keeping(s), code, now, ttl)
  {
  }

  lemma RegisterAside(s: State, call: CallId, name: string, key: string, device: DeviceId)
    ensures Keeping(RegisterOn(s, call, name, key, device)) == RegisterOn(Keeping(s), call, name, key, device)
  {
    var t := Keeping(s);
    assert t.devices == s.devices && t.calls == s.calls && t.pairedBy == s.pairedBy;
    if call in s.calls && s.calls[call].Claimed? {
      var f := s.calls[call];
      if name == "" || key == "" || device in s.devices || KeyTaken(s.devices, key) {
        assert RegisterOn(t, call, name, key, device) == t.(calls := s.calls - {call});
      } else {
        assert RegisterOn(t, call, name, key, device).issued == s.issued;
      }
    }
  }

  lemma LookupAside(s: State, call: CallId, key: string, found: DeviceId)
    ensures Keeping(LookupOn(s, call, key, found)) == LookupOn(Keeping(s), call, key, found)
  {
  }

  lemma {:induction false} RunIsSame(s: State, run: seq<Action>)
    requires OnlyExpiredPruned(s) && AllTimely(s, run)
    ensures Keeping(Exec(s, run)) == ExecKeeping(Keeping(s), run)
    decreases |run|
  {
    if run != [] {
      StepIsSame(s, run[0]);
      OnlyExpiredPrunedStep(s, run[0]);
      RunIsSame(Step(s, run[0]), run[1..]);
    }
  }

  /**
   Pruning changes no run: unless a call fetches its token with a reading of the clock
   older than a prune, the same run on a table that never deletes goes through the same
   states but for the deleted rows, and in particular grants the same.
   */
  lemma PruningChangesNoRun(start: int, run: seq<Action>)
    requires AllTimely(Init(start), run)
    ensures ExecKeeping(Init(start), run) == Keeping(Exec(Init(start), run))
    ensures ExecKeeping(Init(start), run).grants == Exec(Init(start), run).grants
  {
    RunIsSame(Init(start), run);
    assert Keeping(Init(start)) == Init(start);
  }

  /** Whereas a late fetch of a token pruned while alive at its reading parts the two. */
  lemma UntimelyFetchIff(s: State, call: CallId)
    requires OnlyExpiredPruned(s) && call in s.calls && s.calls[call].Reading?
    ensures Keeping(FetchTokenOn(s, call)) == FetchTokenOn(Keeping(s), call)
            <==> var f := s.calls[call]; !(f.value in s.issued && f.value !in s.tokens && f.now <= s.issued[f.value].expiresAt)
  {
    var f := s.calls[call];
    var t, u := Keeping(FetchTokenOn(s, call)), FetchTokenOn(Keeping(s), call);
    assert call in u.calls <==> f.value in s.issued && f.now <= s.issued[f.value].expiresAt;
    assert call in t.calls <==> f.value in s.tokens && f.now <= s.tokens[f.value].expiresAt;
  }

  // ------------------------------------------------------------ revocation is final

  /** The only step that authorises looks at the device's current state. */
  lemma RevokedStep(s: State, a: Action, id: DeviceId)
    requires id in s.devices && s.devices[id].state == Revoked
    ensures var t := Step(s, a);
            && id in t.devices && t.devices[id].state == Revoked
            && (t.grants == s.grants || exists g :: t.grants == s.grants + [g] && g.device != id)
  {
    match a {
      case Register(call, name, key, device) =>
      case Revoke(other) =>
      case FetchDevice(call) =>
        if call in s.calls && s.calls[call].Checking? {
          var f := s.calls[call];
          assert f.device in s.devices && s.devices[f.device].state != Revoked
                 ==> FetchDeviceOn(s, call).grants == s.grants + [Grant(f.value, f.now, f.device)];
        }
      case _ => KeepsDevices(s, a);
    }
  }

  lemma KeepsDevices(s: State, a: Action)
    requires !a.Register? && !a.Revoke? && !a.FetchDevice?
    ensures Step(s, a).devices == s.devices && Step(s, a).grants == s.grants
  {
  }

  /** Once revoked, a device is never authorised again, not even by a call under way that has not yet read the device row. */
  lemma {:induction false} RevocationIsPermanent(s: State, run: seq<Action>, id: DeviceId)
    requires id in s.devices && s.devices[id].state == Revoked
    ensures var t := Exec(s, run);
            && id in t.devices && t.devices[id].state == Revoked && s.grants <= t.grants
            && forall i :: |s.grants| <= i < |t.grants| ==> t.grants[i].device != id
    decreases |run|
  {
    if run != [] {
      RevokedStep(s, run[0], id);
      RevocationIsPermanent(Step(s, run[0]), run[1..], id);
    }
  }

  // ---------------------------------------------------------- one code, one device

  predicate Spent(created: set<Code>, challenges: map<Code, Challenge>, code: Code) {
    code in created && (code in challenges ==> challenges[code].used)
  }

  predicate Claims(calls: map<CallId, Flight>, call: CallId, code: Code) {
    call in calls && calls[call].Claimed? && calls[call].code == code
  }

  /** A code that was claimed is spent, and is held by one call or has paired one device. */
  ghost predicate SingleUse(s: State) {
    && s.pairedBy.Keys == s.devices.Keys
    && |s.challenges| <= MAX_CHALLENGES
    && (forall c :: c in s.challenges ==> c in s.created)
    && (forall k, c :: Claims(s.calls, k, c) ==> Spent(s.created, s.challenges, c))
    && (forall d :: d in s.pairedBy ==> Spent(s.created, s.challenges, s.pairedBy[d]))
    && (forall k, l, c :: Claims(s.calls, k, c) && Claims(s.calls, l, c) ==> k == l)
    && (forall k, d :: d in s.pairedBy ==> !Claims(s.calls, k, s.pairedBy[d]))
    && (forall d, e :: d in s.pairedBy && e in s.pairedBy && s.pairedBy[d] == s.pairedBy[e] ==> d == e)
  }

  lemma CreateKeepsSingle(s: State, code: Code, now: int, ttl: int)
    requires SingleUse(s)
    ensures SingleUse(CreateOn(s, code, now, ttl))
  {
    var t := CreateOn(s, code, now, ttl);
    if t != s {
      ChallengesAreBounded(s.challenges, code, now, ttl);
      assert forall c :: Spent(s.created, s.challenges, c) ==> Spent(t.created, t.challenges, c);
    }
  }

  /** Steps that add no claim and touch neither codes nor pairings. */
  lemma SingleFrame(s: State, t: State)
    requires SingleUse(s)
    requires t.challenges == s.challenges && t.created == s.created && t.pairedBy == s.pairedBy
    requires t.devices.Keys == s.devices.Keys
    requires forall k, c :: Claims(t.calls, k, c) ==> Claims(s.calls, k, c)
    ensures SingleUse(t)
  {
  }

  /** The code is marked used; nobody holds it yet. */
  lemma SpendKeepsSingle(s: State, code: Code)
    requires SingleUse(s) && code in s.challenges && !s.challenges[code].used
    ensures var t := s.(challenges := s.challenges[code := s.challenges[code].(used := true)]);
            SingleUse(t) && Spent(t.created, t.challenges, code)
    ensures forall k :: !Claims(s.calls, k, code)
    ensures forall d :: d in s.pairedBy ==> s.pairedBy[d] != code
  {
    var t := s.(challenges := s.challenges[code := s.challenges[code].(used := true)]);
    assert !Spent(s.created, s.challenges, code);
    assert t.challenges.Keys == s.challenges.Keys && |t.challenges| == |t.challenges.Keys|;
    assert forall c :: Spent(s.created, s.challenges, c) ==> Spent(t.created, t.challenges, c);
  }

  /** A call takes hold of a spent code that nobody holds and that has paired nothing. */
  lemma HoldKeepsSingle(s: State, call: CallId, f: Flight)
    requires SingleUse(s) && call !in s.calls && f.Claimed? && Spent(s.created, s.challenges, f.code)
    requires forall k :: !Claims(s.calls, k, f.code)
    requires forall d :: d in s.pairedBy ==> s.pairedBy[d] != f.code
    ensures SingleUse(s.(calls := s.calls[call := f]))
  {
    var t := s.(calls := s.calls[call := f]);
    assert forall k, c :: Claims(t.calls, k, c) ==> Claims(s.calls, k, c) || (k == call && c == f.code);
  }

  lemma ClaimKeepsSingle(s: State, call: CallId, code: Code)
    requires SingleUse(s)
    ensures SingleUse(ClaimOn(s, call, code))
  {
    if call !in s.calls && code in s.challenges && !s.challenges[code].used {
      SpendKeepsSingle(s, code);
      var t := s.(challenges := s.challenges[code := s.challenges[code].(used := true)]);
      HoldKeepsSingle(t, call, Claimed(code, s.clock, s.accessExpiry));
    }
  }

  /** A spent code that nobody holds and that has paired nothing pairs a new device. */
  lemma PairKeepsSingle(s: State, device: DeviceId, d: Device, code: Code)
    requires SingleUse(s) && device !in s.devices && Spent(s.created, s.challenges, code)
    requires forall k :: !Claims(s.calls, k, code)
    requires forall e :: e in s.pairedBy ==> s.pairedBy[e] != code
    ensures SingleUse(s.(devices := s.devices[device := d], pairedBy := s.pairedBy[device := code]))
  {
    var t := s.(devices := s.devices[device := d], pairedBy := s.pairedBy[device := code]);
    assert t.pairedBy.Keys == s.pairedBy.Keys + {device} == t.devices.Keys;
    forall e | e in t.pairedBy ensures Spent(t.created, t.challenges, t.pairedBy[e]) {
      assert e == device || t.pairedBy[e] == s.pairedBy[e];
    }
    forall k, e | e in t.pairedBy ensures !Claims(t.calls, k, t.pairedBy[e]) {
      assert e == device || t.pairedBy[e] == s.pairedBy[e];
    }
    forall e, f | e in t.pairedBy && f in t.pairedBy && t.pairedBy[e] == t.pairedBy[f] ensures e == f {
      assert e == device || t.pairedBy[e] == s.pairedBy[e];
      assert f == device || t.pairedBy[f] == s.pairedBy[f];
    }
  }

  lemma RegisterKeepsSingle(s: State, call: CallId, name: string, key: string, device: DeviceId)
    requires SingleUse(s)
    ensures SingleUse(RegisterOn(s, call, name, key, device))
  {
    if call in s.calls && s.calls[call].Claimed? {
      if name == "" || key == "" || device in s.devices || KeyTaken(s.devices, key) {
        SingleFrame(s, s.(calls := s.calls - {call}));
      } else {
        var f := s.calls[call];
        var freed := s.(calls := s.calls[call := Issuing(device, f.now, f.ttl)]);
        assert Claims(s.calls, call, f.code);
        assert forall k, c :: Claims(freed.calls, k, c) ==> Claims(s.calls, k, c) && k != call;
        SingleFrame(s, freed);
        PairKeepsSingle(freed, device, Device(key, Paired), f.code);
      }
    }
  }

  /** Every other step leaves the codes, the claims and the pairings alone. */
  lemma OtherKeepsSingle(s: State, a: Action)
    requires SingleUse(s) && !a.Create? && !a.Claim? && !a.Register?
    ensures SingleUse(Step(s, a))
  {
    OtherLeavesAlone(s, a);
    OtherAddsNoClaim(s, a);
    SingleFrame(s, Step(s, a));
  }

  lemma OtherLeavesAlone(s: State, a: Action)
    requires !a.Create? && !a.Claim? && !a.Register?
    ensures var t := Step(s, a);
            t.challenges == s.challenges && t.created == s.created && t.pairedBy == s.pairedBy && t.devices.Keys == s.devices.Keys
  {
    match a {
      case Revoke(id) =>
        if id in s.devices {
          assert RevokeOn(s, id).devices.Keys == s.devices.Keys + {id};
        }
      case FetchDevice(call) =>
      case _ => KeepsDevices(s, a);
    }
  }

  lemma OtherAddsNoClaim(s: State, a: Action)
    requires !a.Create? && !a.Claim? && !a.Register?
    ensures forall k, c :: Claims(Step(s, a).calls, k, c) ==> Claims(s.calls, k, c)
  {
    forall k, c | Claims(Step(s, a).calls, k, c) ensures Claims(s.calls, k, c) {
      ClaimIsOld(s, a, k);
    }
  }

  lemma ClaimIsOld(s: State, a: Action, k: CallId)
    requires !a.Create? && !a.Claim? && !a.Register?
    requires k in Step(s, a).calls && Step(s, a).calls[k].Claimed?
    ensures k in s.calls && s.calls[k] == Step(s, a).calls[k]
  {
    if a.Lookup? || a.ReadClock? || a.Prune? || a.Insert? {
      IssuingClaimsNothing(s, a, k);
    } else if a.FetchToken? {
      FetchClaimsNothing(s, a.call, k);
    } else if a.Authorize? || a.FetchDevice? {
      CheckingClaimsNothing(s, a, k);
    }
  }

  lemma IssuingClaimsNothing(s: State, a: Action, k: CallId)
    requires a.Lookup? || a.ReadClock? || a.Prune? || a.Insert?
    requires k in Step(s, a).calls && Step(s, a).calls[k].Claimed?
    ensures k in s.calls && s.calls[k] == Step(s, a).calls[k]
  {
  }

  lemma FetchClaimsNothing(s: State, call: CallId, k: CallId)
    requires k in FetchTokenOn(s, call).calls && FetchTokenOn(s, call).calls[k].Claimed?
    ensures k in s.calls && s.calls[k] == FetchTokenOn(s, call).calls[k]
  {
  }

  lemma CheckingClaimsNothing(s: State, a: Action, k: CallId)
    requires a.Authorize? || a.FetchDevice?
    requires k in Step(s, a).calls && Step(s, a).calls[k].Claimed?
    ensures k in s.calls && s.calls[k] == Step(s, a).calls[k]
  {
  }

  lemma {:induction false} SingleUseRun(s: State, run: seq<Action>)
    requires SingleUse(s)
    ensures SingleUse(Exec(s, run))
    decreases |run|
  {
    if run != [] {
      match run[0] {
        case Create(code, now, ttl) => CreateKeepsSingle(s, code, now, ttl);
        case Claim(call, code) => ClaimKeepsSingle(s, call, code);
        case Register(call, name, key, device) => RegisterKeepsSingle(s, call, name, key, device);
        case _ => OtherKeepsSingle(s, run[0]);
      }
      SingleUseRun(Step(s, run[0]), run[1..]);
    }
  }

  /** However calls interleave, a code pairs at most one device, every device was paired by a code that was issued, and at most 1024 codes are held. */
  lemma OneCodeOneDevice(start: int, run: seq<Action>)
    ensures var s := Exec(Init(start), run);
            && s.pairedBy.Keys == s.devices.Keys
            && (forall d :: d in s.pairedBy ==> s.pairedBy[d] in s.created)
            && (forall d, e :: d in s.pairedBy && e in s.pairedBy && s.pairedBy[d] == s.pairedBy[e] ==> d == e)
            && |s.challenges| <= MAX_CHALLENGES
  {
    SingleUseRun(Init(start), run);
    var s := Exec(Init(start), run);
    assert forall d :: d in s.pairedBy ==> Spent(s.created, s.challenges, s.pairedBy[d]);
  }
}
