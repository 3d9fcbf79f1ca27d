/**
 The SNTP client in its own form: one object whose methods update the static variables, the server table
 and the timers in place. Each is proved against the state machine of SntpModel.
 */
module SntpClient {
  import opened CInt
  import opened SntpInvariants
  import opened SntpModel
  import opened SntpPacket
  import opened SntpProcess
  import opened SntpReachability
  import SntpServers
  import opened SntpTime
  import opened Wrappers

  /** The `err_t` values `sntp_recv` distinguishes. */
  datatype Err = ErrOk | ErrKod | ErrTimeout | ErrArg

  lemma AroundNext(start: nat, i: nat, size: nat)
    requires start < size && i < size
    ensures Around(Around(start, i, size), 1, size) == Around(start, i + 1, size)
  {
  }

  class Client {
    const o: Options
    const servers: array<Server>
    var mode: Mode
    var open: bool
    var current: nat
    var retryTimeout: U32
    var lastAddr: Addr
    var lastStamp: NetTime
    var requestDue: seq<int>
    var nextDue: seq<int>
    var dns: nat
    var now: int
    ghost var trace: seq<Obs>

    /** What the handlers need of one another. */
    ghost predicate InRange()
      reads this
    {
      servers.Length == o.maxServers && current < o.maxServers
    }

    /** Between events: every invariant of the state machine's runs holds of the object's own variables. */
    ghost predicate Valid()
      reads this, servers
    {
      InRange() && Sound(o, Abstract())
    }

    ghost function Abstract(): State
      reads this, servers
    {
      State(mode, open, servers[..], current, retryTimeout, lastAddr, lastStamp, requestDue, nextDue, dns, now, trace)
    }

    constructor (options: Options)
      ensures Valid() && fresh(servers) && o == options
      ensures Abstract() == PowerUp(options)
    {
      o := options;
      servers := new Server[options.maxServers](_ => Server(None, IP_ADDR_ANY, 0));
      mode, open, current, retryTimeout := Poll, false, 0, 0;
      lastAddr, lastStamp := IP_ADDR_ANY, NO_TIME;
      requestDue, nextDue, dns, now := [], [], 0, 0;
      trace := [];
      new;
      assert Abstract() == PowerUp(options);
      PowerUpSound(options);
    }

    /** Fills the request buffer and remembers its transmit timestamp. */
    method InitializeRequest(req: array<Byte>, clock: Clock)
      requires req.Length == SNTP_MSG_LEN
      modifies req, this`lastStamp
      ensures req[..] == RequestMessage(StampOf(clock))
      ensures lastStamp == StampOf(clock)
    {
      forall i | 0 <= i < SNTP_MSG_LEN {
        req[i] := 0;
      }
      req[0] := CLIENT_LI_VN_MODE;
      var secs, frac := UnixToNtpSeconds(clock.sec), MicrosToFraction(clock.usec);
      lastStamp := NetTime(SwapBytes(WrapU32(secs)), SwapBytes(frac));
      var bytes := StoreTime(lastStamp);
      forall i | 0 <= i < 8 {
        req[SNTP_OFFSET_TRANSMIT_TIME + i] := bytes[i];
      }
    }

    method SendRequest(dest: Addr, env: Env)
      requires InRange()
      modifies this, servers
      ensures InRange()
      ensures Abstract() == SntpModel.SendRequest(o, old(Abstract()), dest, env)
    {
      if env.haveBuffer {
        var p := new Byte[SNTP_MSG_LEN];
        InitializeRequest(p, env.clock);
        HandOver(p, dest, env.clock);
      } else {
        requestDue := InsertDue(requestDue, now + o.retryTimeout);
      }
    }

    /** Hands the prepared request to `udp_sendto`, shifts the register and sets up the receive timeout. */
    method HandOver(p: array<Byte>, dest: Addr, ghost clock: Clock)
      requires InRange()
      modifies this, servers
      ensures InRange()
      ensures Abstract() ==
              SntpModel.HandOver(o, old(Abstract()), dest, old(Sent(current, dest, p[..], now, clock, open)))
    {
      trace := trace + [Sent(current, dest, p[..], now, clock, open)];
      servers[current] := servers[current].(reachability := servers[current].reachability << 1);
      nextDue := InsertDue(nextDue, now + o.recvTimeout);
      lastAddr := dest;
    }

    /** Sends to the current server, resolving its name first if it has one. */
    method Request(env: Env)
      requires InRange()
      modifies this, servers
      ensures InRange()
      ensures Abstract() == SntpModel.Request(o, old(Abstract()), env)
    {
      if servers[current].name.Some? {
        SetAddr(IP_ADDR_ANY);
        trace := trace + [Queried(current, servers[current].name.value)];
        match env.dns
        case InProgress =>
          dns := dns + 1;
        case Resolved(addr) =>
          SetAddr(addr);
          SendRequest(addr, env);
        case Failed =>
          nextDue := InsertDue(nextDue, now + o.retryTimeout);
      } else {
        var serverAddress := servers[current].addr;
        if serverAddress != IP_ADDR_ANY {
          SendRequest(serverAddress, env);
        } else {
          nextDue := InsertDue(nextDue, now + o.retryTimeout);
        }
      }
    }

    method SetAddr(addr: Addr)
      requires InRange()
      modifies servers
      ensures Abstract() == old(Abstract()).SetAddr(addr)
    {
      servers[current] := servers[current].(addr := addr);
    }

    /** Schedules another request and doubles the delay of the one after it, up to the limit. */
    method Retry()
      modifies this
      ensures Abstract() == SntpModel.Retry(o, old(Abstract()))
    {
      requestDue := InsertDue(requestDue, now + retryTimeout);
      var newRetryTimeout := WrapU32(retryTimeout * 2);
      if newRetryTimeout <= o.retryTimeoutMax && newRetryTimeout > retryTimeout {
        retryTimeout := newRetryTimeout;
      }
      trace := trace + [Retried];
    }

    /** One place further, in an 8-bit variable. */
    method Advance()
      requires InRange()
      modifies this`current
      ensures InRange() && current == Around(old(current), 1, o.maxServers)
    {
      current := (current + 1) % 256;
      if current >= o.maxServers {
        current := 0;
      }
    }

    /** Steps the index to the next configured server, or back to where it was if there is none. */
    method SelectNextServer() returns (found: bool)
      requires InRange()
      modifies this`current
      ensures InRange()
      ensures NextServer(servers[..], old(current)) == if found then Some(current) else None
      ensures found ==> SntpServers.NearestOther(servers[..], old(current), current)
      ensures !found ==> current == old(current)
      ensures !found ==> forall i :: 0 <= i < servers.Length && i != current ==> !servers[i].Configured()
    {
      SntpServers.NextServerMeaning(servers[..], current);
      var oldServer, i := current, 0;
      while i < o.maxServers - 1
        invariant i <= o.maxServers - 1
        invariant current == Around(oldServer, i, o.maxServers)
        invariant NextServer(servers[..], oldServer) == FirstConfigured(servers[..], oldServer, i + 1)
      {
        Advance();
        AroundNext(oldServer, i, o.maxServers);
        if servers[current].Configured() {
          return true;
        }
        i := i + 1;
      }
      current := oldServer;
      found := false;
    }

    method TryNextServer(env: Env)
      requires InRange()
      modifies this, servers
      ensures InRange()
      ensures Abstract() == SntpModel.TryNext(o, old(Abstract()), env)
    {
      var found := SelectNextServer();
      if found {
        retryTimeout := o.retryTimeout;
        trace := trace + [Reset];
        Request(env);
      } else {
        Retry();
      }
    }

    method Recv(data: seq<Byte>, from: Addr, port: nat, env: Env)
      requires InRange()
      modifies this, servers
      ensures InRange()
      ensures Abstract() == SntpModel.Receive(o, old(Abstract()), data, from, port, env)
    {
      var err := ErrArg;
      var timestamps := Timestamps(NO_TIME, NO_TIME, NO_TIME);
      if (mode != Poll || from == lastAddr) && port == SNTP_PORT {
        if |data| == SNTP_MSG_LEN {
          var packetMode := data[0] % 8;
          if (mode == Poll && packetMode == SNTP_MODE_SERVER) ||
             (mode == ListenOnly && packetMode == SNTP_MODE_BROADCAST)
          {
            if data[1] == SNTP_STRATUM_KOD {
              err := ErrKod;
            } else {
              timestamps := ExtractTimestamps(data);
              if timestamps.orig.sec == lastStamp.sec && timestamps.orig.frac == lastStamp.frac {
                err := ErrOk;
              }
            }
          } else {
            err := ErrTimeout;
          }
        }
      } else {
        err := ErrTimeout;
      }
      if err == ErrOk {
        Accepted(data, timestamps, from, env);
      } else if err == ErrKod {
        if mode == Poll {
          trace := trace + [Kissed];
          TryNextServer(env);
        }
      }
    }

    /** The part of `sntp_recv` that handles a correct answer. */
    method Accepted(data: seq<Byte>, timestamps: Timestamps, from: Addr, env: Env)
      requires InRange() && |data| == SNTP_MSG_LEN && timestamps == ExtractTimestamps(data)
      modifies this, servers
      ensures InRange()
      ensures Abstract() == SntpModel.Accept(o, old(Abstract()), data, from, env)
    {
      Credit(data, timestamps, from, env);
      if mode == Poll {
        Reschedule();
      }
    }

    method Reschedule()
      modifies this
      ensures Abstract() == SntpModel.Reschedule(o, old(Abstract()))
      ensures current == old(current)
    {
      nextDue := Drop(nextDue);
      requestDue := Drop(requestDue);
      retryTimeout := o.retryTimeout;
      trace := trace + [Reset];
      requestDue := InsertDue(requestDue, now + o.updateDelay);
    }

    /** Sets the system time, then marks the current server as having answered. */
    method Credit(data: seq<Byte>, timestamps: Timestamps, from: Addr, env: Env)
      requires InRange() && |data| == SNTP_MSG_LEN && timestamps == ExtractTimestamps(data)
      modifies this, servers
      ensures InRange()
      ensures Abstract() == SntpModel.Credit(old(Abstract()), data, from, env)
    {
      var sec, micros := Process(timestamps, env.clock);
      trace := trace + [ClockSet(sec, micros)];
      trace := trace + [Obs.Accepted(current, from, data, mode, requestDue == [] && nextDue == [], env.clock, now)];
      servers[current] := servers[current].(reachability := servers[current].reachability | 1);
    }

    /** The resolver's answer goes to whichever server is current by now. */
    method DnsFound(answer: Option<Addr>, env: Env)
      requires InRange()
      modifies this, servers
      ensures InRange()
      ensures Abstract() == SntpModel.DnsFoundStep(o, old(Abstract()), answer, env)
    {
      if answer.Some? {
        SetAddr(answer.value);
        SendRequest(answer.value, env);
      } else {
        TryNextServer(env);
      }
    }

    method Init(pcb: bool, env: Env)
      requires InRange()
      modifies this, servers
      ensures InRange()
      ensures Abstract() == SntpModel.InitStep(o, old(Abstract()), pcb, env)
    {
      if !open {
        if pcb {
          open := true;
          if mode == Poll {
            retryTimeout := o.retryTimeout;
            trace := trace + [Started] + [Reset];
            if o.startupDelay {
              requestDue := InsertDue(requestDue, now + env.startupDelay);
            } else {
              Request(env);
            }
          }
        }
      }
    }

    /** Clears every reachability register and cancels at most one timer of each handler. */
    method Stop()
      requires InRange()
      modifies this, servers
      ensures InRange()
      ensures Abstract() == SntpModel.StopStep(o, old(Abstract()))
    {
      if open {
        var i := 0;
        while i < o.maxServers
          invariant i <= o.maxServers
          invariant forall j :: 0 <= j < i ==> servers[j] == old(servers[j]).(reachability := 0)
          invariant forall j :: i <= j < o.maxServers ==> servers[j] == old(servers[j])
          invariant Abstract() == old(Abstract()).(servers := servers[..])
        {
          servers[i] := servers[i].(reachability := 0);
          i := i + 1;
        }
        assert servers[..] == Cleared(old(servers[..]));
        requestDue := Drop(requestDue);
        nextDue := Drop(nextDue);
        open := false;
        trace := trace + [Stopped];
      }
    }

    method SetServer(idx: nat, addr: Option<Addr>)
      requires InRange()
      modifies servers
      ensures Abstract() == SntpModel.SetServerStep(old(Abstract()), idx, addr)
    {
      if idx < servers.Length {
        if addr.Some? {
          servers[idx] := servers[idx].(addr := addr.value);
        } else {
          servers[idx] := servers[idx].(addr := IP_ADDR_ANY);
        }
        servers[idx] := servers[idx].(name := None);
      }
    }

    method SetServerName(idx: nat, name: Option<string>)
      requires InRange()
      modifies servers
      ensures Abstract() == SntpModel.SetServerNameStep(old(Abstract()), idx, name)
    {
      if idx < servers.Length {
        servers[idx] := servers[idx].(name := name);
      }
    }

    predicate CanHappen(e: Event)
      reads this, servers
      ensures CanHappen(e) == Enabled(Abstract(), e)
    {
      match e
      case RequestTimer(_) => requestDue != []
      case NextTimer(_) => nextDue != []
      case DnsFound(answer, _) => dns > 0 && answer != Some(IP_ADDR_ANY)
      case Packet(_, _, _, _) => open
      case SetMode(_) => !open
      case _ => true
    }

    /** Delivers one event: the object follows the state machine, and its invariants hold again. */
    method Handle(e: Event)
      requires Valid()
      modifies this, servers
      ensures Valid()
      ensures Abstract() == Step(o, old(Abstract()), e)
    {
      StepSound(o, Abstract(), e);
      if CanHappen(e) {
        Dispatch(e);
      }
    }

    method Dispatch(e: Event)
      requires InRange() && Enabled(Abstract(), e)
      modifies this, servers
      ensures InRange()
      ensures Abstract() == Step(o, old(Abstract()), e)
    {
      match e
      case Init(pcb, env) => Init(pcb, env);
      case Stop => Stop();
      case SetServer(idx, addr) => SetServer(idx, addr);
      case SetServerName(idx, name) => SetServerName(idx, name);
      case SetMode(m) => mode := m;
      case TimePasses(ms) => now := now + ms;
      case _ => CallBack(e);
    }

    /** The events by which the stack calls the client. */
    method CallBack(e: Event)
      requires InRange() && Enabled(Abstract(), e)
      requires e.RequestTimer? || e.NextTimer? || e.DnsFound? || e.Packet?
      modifies this, servers
      ensures InRange()
      ensures Abstract() == Step(o, old(Abstract()), e)
    {
      match e
      case RequestTimer(env) => RequestTimerFires(env);
      case NextTimer(env) => NextTimerFires(env);
      case DnsFound(answer, env) => QueryFinishes(answer, env);
      case Packet(data, from, port, env) => Recv(data, from, port, env);
    }

    // The timer list and the resolver forget an entry before they call back.

    method RequestTimerFires(env: Env)
      requires InRange()
      modifies this, servers
      ensures InRange()
      ensures Abstract() == SntpModel.Request(o, old(Abstract()).CancelRequest(), env)
    {
      requestDue := Drop(requestDue);
      Request(env);
    }

    method NextTimerFires(env: Env)
      requires InRange()
      modifies this, servers
      ensures InRange()
      ensures Abstract() == SntpModel.TryNext(o, old(Abstract()).CancelNext(), env)
    {
      nextDue := Drop(nextDue);
      TryNextServer(env);
    }

    method QueryFinishes(answer: Option<Addr>, env: Env)
      requires InRange() && dns > 0
      modifies this, servers
      ensures InRange()
      ensures Abstract() == SntpModel.DnsFoundStep(o, old(Abstract().(dns := dns - 1)), answer, env)
    {
      dns := dns - 1;
      DnsFound(answer, env);
    }

    /** Any run of the object is one of the state machine, and leaves all invariants in place. */
    method Run(es: seq<Event>)
      requires Valid()
      modifies this, servers
      ensures Valid()
      ensures Abstract() == Exec(o, old(Abstract()), es)
    {
      for i := 0 to |es|
        invariant Valid()
        invariant Abstract() == Exec(o, old(Abstract()), es[..i])
      {
        assert es[..i + 1][..i] == es[..i];
        Handle(es[i]);
      }
      assert es[..|es|] == es;
    }

    /**
     `sntp_getreachability`: non-zero exactly if the server has answered one of the last eight requests sent to it
     since the last stop.
     */
    method GetReachability(idx: nat) returns (register: bv8)
      requires Valid()
      ensures idx < o.maxServers ==> (register != 0 <==> exists i: nat :: i < 8 && Answered(trace, idx, i))
      ensures idx >= o.maxServers ==> register == 0
    {
      if idx < servers.Length {
        register := servers[idx].reachability;
        RegisterTells(Abstract(), idx);
      } else {
        register := 0;
      }
    }
  }
}
