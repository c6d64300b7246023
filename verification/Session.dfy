/**
 A session: the record kept for one TCP client, pooled and reused. Only the
 fields that the lifecycle, login and UDP admission depend on are here. Times are
 in nanoseconds of a clock that never goes back.
 */
module Sessions {
  import opened Wrappers

  datatype SessionState = Handshaking | Handshaked | LoginWait | Ready | Closed

  datatype LifeState = Idle | Active | Closing | Finalized | Released

  datatype Endpoint = Endpoint(address: int, port: int)

  const NANOS_PER_SECOND: int := 1_000_000_000
  const DEFAULT_TTL: int := 300

  datatype Sess = Sess(
    id: int, state: SessionState, life: LifeState, nickname: string, zoneId: int,
    endpoint: Option<Endpoint>, token: string, issued: int, ttl: int,
    lastAlive: int, generation: nat)
  {
    /** The token exists, was issued, and its age in whole seconds is within its time to live. */
    predicate TokenValid(now: int) {
      token != "" && issued != 0 && (now - issued) / NANOS_PER_SECOND <= ttl
    }

    function ClearToken(): Sess {
      this.(token := "", issued := 0)
    }

    /** Everything that identified the last user goes; the id and the issue time of the token stay. */
    function Cleanup(): Sess {
      this.(nickname := "", endpoint := None, token := "", zoneId := -1,
            generation := generation + 1, life := Idle)
    }

    function Reset(newId: int, now: int): Sess {
      this.(id := newId, nickname := "", state := Handshaking, endpoint := None, token := "",
            zoneId := 0, lastAlive := now, generation := generation + 1, issued := 0, ttl := DEFAULT_TTL)
    }

    /** What the pool does to a session it hands out: reset, activate, install the callback, clean up. */
    function HandedOut(newId: int, now: int): Sess {
      Reset(newId, now).Cleanup()
    }

    predicate Closable() {
      life == Active || life == Idle
    }

    predicate Unauthenticated() {
      state == Handshaking || state == LoginWait
    }
  }

  function NewSess(now: int): Sess {
    Sess(-1, Handshaking, Idle, "", 0, None, "", 0, DEFAULT_TTL, now, 0)
  }

  class Session {
    const index: nat
    var id: int
    var state: SessionState
    var life: LifeState
    var nickname: string
    var zoneId: int
    var endpoint: Option<Endpoint>
    var token: string
    var issued: int
    var ttl: int
    var lastAlive: int
    var generation: nat

    function Value(): Sess
      reads this
    {
      Sess(id, state, life, nickname, zoneId, endpoint, token, issued, ttl, lastAlive, generation)
    }

    /** `index` is the place in the pool that the session will have. */
    constructor (index: nat, now: int)
      ensures this.index == index && Value() == NewSess(now)
    {
      this.index := index;
      id, state, life, nickname, zoneId := -1, Handshaking, Idle, "", 0;
      endpoint, token, issued, ttl, lastAlive, generation := None, "", 0, DEFAULT_TTL, now, 0;
    }

    method TryActivate() returns (ok: bool)
      modifies this
      ensures ok == (old(life) == Idle)
      ensures Value() == if ok then old(Value()).(life := Active) else old(Value())
    {
      ok := life == Idle;
      if ok {
        life := Active;
      }
    }

    method TryClose() returns (ok: bool)
      modifies this
      ensures ok == old(Value()).Closable()
      ensures Value() == if ok then old(Value()).(life := Closing) else old(Value())
    {
      if life == Active {
        life := Closing;
        return true;
      }
      if life == Idle {
        life := Closing;
        return true;
      }
      return false;
    }

    method FinalizeClose()
      modifies this
      ensures Value() == old(Value()).(life := Finalized)
    {
      life := Finalized;
    }

    method MarkReleased()
      modifies this
      ensures Value() == old(Value()).(life := Released)
    {
      life := Released;
    }

    method SetActive(v: bool)
      modifies this
      ensures Value() == old(Value()).(life :=
        if v then (if old(life) == Idle then Active else old(life))
        else (if old(life) == Active then Idle else old(life)))
    {
      if v {
        var _ := TryActivate();
      } else if life == Active {
        life := Idle;
      }
    }

    method ClearUdpToken()
      modifies this
      ensures Value() == old(Value()).ClearToken()
    {
      token := "";
      issued := 0;
    }

    method SetUdpToken(t: string, now: int, configuredTtl: int)
      modifies this
      ensures Value() == old(Value()).(token := t, issued := now, ttl := configuredTtl)
    {
      token := t;
      issued := now;
      ttl := configuredTtl;
    }

    method Cleanup()
      modifies this
      ensures Value() == old(Value()).Cleanup()
    {
      nickname := "";
      endpoint := None;
      token := "";
      zoneId := -1;
      generation := generation + 1;
      life := Idle;
    }

    method Reset(newId: int, now: int)
      modifies this
      ensures Value() == old(Value()).Reset(newId, now)
    {
      id := newId;
      nickname := "";
      state := Handshaking;
      endpoint := None;
      token := "";
      zoneId := 0;
      lastAlive := now;
      generation := generation + 1;
      token := "";
      issued := 0;
      ttl := DEFAULT_TTL;
    }
  }
}
