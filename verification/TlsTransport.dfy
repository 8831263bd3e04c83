/** The TLS wrapper as an object over shared surroundings. */
module TlsTransport {
  import opened Basics
  import opened Tls

  /** The lower stream and the backend, which others may use too. */
  class Surroundings {
    var env: Env

    constructor (env: Env)
      ensures this.env == env
    {
      this.env := env;
    }
  }

  class TlsStreamTransport {
    const config: Config
    const around: Surroundings
    var open: bool

    ghost function Value(): Wrapper
      reads this, around
    {
      Wrapper(config, open, around.env)
    }

    ghost predicate Valid()
      reads this, around
    {
      Bracketed(Value())
    }

    constructor (config: Config, around: Surroundings)
      requires around.env.calls == []
      ensures Valid() && !open && this.config == config && this.around == around
    {
      this.config, this.around, open := config, around, false;
      new;
      assert Parses(around.env.calls, false, [], []);
    }

    method Open() returns (status: Status)
      requires Valid()
      modifies this, around
      ensures Valid()
      ensures (Value(), status) == Tls.Open(old(Value()))
      ensures open <==> old(open) || status == Ok
    {
      DoBracketed(Value(), DoOpen);
      if open {
        return AlreadyOpen;
      }
      if !config.Valid() {
        return InvalidArgument;
      }
      var (afterOpen, openStatus) := LowerOpen(around.env);
      around.env := afterOpen;
      if openStatus != Ok && openStatus != AlreadyOpen {
        return openStatus;
      }
      var (afterHandshake, reply) := Backend(around.env, Handshake(true));
      around.env := afterHandshake;
      if reply.status != Ok {
        around.env := LowerClose(around.env).0;
        return reply.status;
      }
      open := true;
      return Ok;
    }

    method Close() returns (status: Status)
      requires Valid()
      modifies this, around
      ensures Valid() && !open && (config.hasLower ==> !around.env.lowerOpen)
      ensures (Value(), status) == Tls.Close(old(Value()))
    {
      DoBracketed(Value(), DoClose);
      if !open {
        if config.hasLower {
          around.env := LowerClose(around.env).0;
        }
        return Ok;
      }
      status := Ok;
      if config.hasBackend && config.hasLower {
        var (afterClose, reply) := Backend(around.env, BackendClose);
        around.env, status := afterClose, reply.status;
      }
      if config.hasLower {
        var (afterLower, lowerStatus) := LowerClose(around.env);
        around.env := afterLower;
        if status == Ok {
          status := lowerStatus;
        }
      }
      open := false;
    }

    /** The backend and the lower stream it is given exist whenever they are used. */
    method ReadSome(isNull: bool, size: nat) returns (status: Status, bytes: seq<byte>)
      requires Valid()
      modifies around
      ensures Valid()
      ensures Tls.ReadSome(old(Value()), isNull, size) == Some((Value(), status, bytes))
      ensures around.env.calls == old(around.env.calls)
                + if old(open) && !(isNull && size != 0) then [BackendRead(size, bytes)] else []
    {
      DoBracketed(Value(), DoRead(isNull, size));
      if !open {
        return NotOpen, [];
      }
      if isNull && size != 0 {
        return InvalidArgument, [];
      }
      assert config.hasBackend && config.hasLower;
      var (after, reply) := Backend(around.env, BackendRead(size, []));
      around.env := after;
      return reply.status, reply.bytes[..Min(size, |reply.bytes|)];
    }

    method WriteAll(input: Input) returns (status: Status)
      requires Valid()
      modifies around
      ensures Valid()
      ensures Tls.WriteAll(old(Value()), input) == Some((Value(), status))
      ensures around.env.calls == old(around.env.calls)
                + if old(open) && !input.Invalid() then [BackendWrite(input.Data())] else []
    {
      DoBracketed(Value(), DoWrite(input));
      if !open {
        return NotOpen;
      }
      if input.Invalid() {
        return InvalidArgument;
      }
      assert config.hasBackend && config.hasLower;
      var (after, reply) := Backend(around.env, BackendWrite(input.Data()));
      around.env := after;
      return reply.status;
    }
  }
}
