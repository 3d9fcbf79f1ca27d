/**
 The MQTT client's lifecycle over the MQTT library. A connection attempt and a clean-up are each taken as one step: no
 callback of the library is modelled inside them.
 */
module MqttLifecycle {
  import opened Wrappers

  const MAX_SUBSCRIBE_RETRIES: nat := 3
  const IOTC_MAX_MQTT_CONN_RETRIES: nat := 150

  /** The static variables; a handle is the number of the library's create call that made it. */
  datatype Client = Client(
    handle: Option<nat>,
    connected: bool,
    disconnectRequested: bool,
    initialized: bool,
    inbound: bool,             // mqtt_inbound_msg_cb != NULL
    status: bool)              // status_cb != NULL

  /** What the client asked of the library: successful inits and creates, and every deinit and delete. */
  datatype Library = Library(inits: nat, deinits: nat, creates: nat, deleted: seq<nat>)

  datatype Mqtt = Mqtt(client: Client, library: Library)

  datatype ConnectionType = Undefined | Aws | Azure

  /** What a connection attempt meets. The library leaves the handle alone when it creates none. */
  datatype ConnectEnv = ConnectEnv(
    configured: bool,          // iotcl_mqtt_get_config() != NULL
    subTopic: bool,
    serverCa: bool,
    connectionType: ConnectionType,
    initOk: bool,
    createOk: bool,
    registerOk: bool,
    connectOk: nat -> bool,    // the i-th attempt
    subscribeOk: nat -> bool,
    disconnectOk: bool)

  const STATICS := Mqtt(Client(None, false, false, false, false, false), Library(0, 0, 0, []))

  /** How far a connection attempt gets. */
  datatype Stage = NotConfigured | InitFailed | NoRootCa | CreateFailed | NotSubscribed | Subscribed

  predicate SomeAttempt(ok: nat -> bool, limit: nat) {
    exists i: nat :: i < limit && ok(i)
  }

  predicate HasRootCa(env: ConnectEnv) {
    env.serverCa || env.connectionType != Undefined
  }

  function StageOf(env: ConnectEnv): Stage {
    if !env.configured then NotConfigured
    else if !env.initOk then InitFailed
    else if !HasRootCa(env) then NoRootCa
    else if !env.createOk then CreateFailed
    else if env.registerOk && SomeAttempt(env.connectOk, IOTC_MAX_MQTT_CONN_RETRIES)
            && SomeAttempt(env.subscribeOk, MAX_SUBSCRIBE_RETRIES) then Subscribed
    else NotSubscribed
  }

  /** Releases the handle and the library, whatever the library answers. */
  function Cleaned(m: Mqtt, disconnectOk: bool): Mqtt {
    var requested := m.client.disconnectRequested && (m.client.handle.None? || disconnectOk);
    var library := m.library.(
      deleted := m.library.deleted + if m.client.handle.Some? then [m.client.handle.value] else [],
      deinits := m.library.deinits + if m.client.initialized then 1 else 0);
    Mqtt(Client(None, false, requested, false, false, false), library)
  }

  /** The variables as an attempt resets them; the callback is only cleared when there is no topic to subscribe to. */
  function ResetFor(c: Client, env: ConnectEnv): Client {
    c.(inbound := c.inbound && env.subTopic, status := false, connected := false, disconnectRequested := false)
  }

  function LibraryInit(m: Mqtt): Mqtt {
    m.(client := m.client.(initialized := true), library := m.library.(inits := m.library.inits + 1))
  }

  function LibraryCreate(m: Mqtt): Mqtt {
    m.(client := m.client.(handle := Some(m.library.creates)), library := m.library.(creates := m.library.creates + 1))
  }

  /** `iotc_mqtt_client_init`, by the stage it reaches. */
  function Initialized(m: Mqtt, env: ConnectEnv): Mqtt {
    var reset := m.(client := ResetFor(m.client, env));
    match StageOf(env)
    case NotConfigured => m
    case InitFailed => Cleaned(reset, env.disconnectOk)
    case NoRootCa => LibraryInit(reset)
    case _ => Opened(LibraryInit(reset), env)
  }

  /** What follows the library's init, when there is a root certificate. */
  function Opened(m: Mqtt, env: ConnectEnv): Mqtt {
    match StageOf(env)
    case CreateFailed => Cleaned(m, env.disconnectOk)
    case Subscribed =>
      var made := LibraryCreate(m);
      made.(client := made.client.(connected := true, inbound := true, status := true))
    case _ => Cleaned(LibraryCreate(m), env.disconnectOk)
  }

  // ----- Balance -----

  predicate Released(m: Mqtt) {
    m.client.handle.None? && !m.client.initialized
  }

  /**
   Every successful library init has had its deinit call but for one while initialized; the created handles not yet
   deleted are exactly the live one; none was deleted twice; and a connected client has a handle and the library.
   */
  ghost predicate Balanced(m: Mqtt) {
    var c, l := m.client, m.library;
    && l.inits == l.deinits + (if c.initialized then 1 else 0)
    && (forall h: nat :: h < l.creates ==> (h in l.deleted <==> c.handle != Some(h)))
    && (forall i :: 0 <= i < |l.deleted| ==> l.deleted[i] < l.creates)
    && (forall i, j :: 0 <= i < j < |l.deleted| ==> l.deleted[i] != l.deleted[j])
    && (c.handle.Some? ==> c.handle.value < l.creates && c.initialized)
    && (c.connected || c.inbound || c.status ==> c.handle.Some?)
  }

  lemma CleanedBalanced(m: Mqtt, disconnectOk: bool)
    requires Balanced(m)
    ensures Balanced(Cleaned(m, disconnectOk)) && Released(Cleaned(m, disconnectOk))
  {
  }

  /** A connection attempt from a released client keeps the balance, whatever stage it reaches. */
  lemma AttemptBalanced(m: Mqtt, env: ConnectEnv)
    requires Balanced(m) && Released(m)
    ensures Balanced(Initialized(m, env))
  {
    var reset := m.(client := ResetFor(m.client, env));
    assert Balanced(LibraryInit(reset));
    CreateBalanced(LibraryInit(reset));
    CleanedBalanced(LibraryCreate(LibraryInit(reset)), env.disconnectOk);
    CleanedBalanced(LibraryInit(reset), env.disconnectOk);
    CleanedBalanced(reset, env.disconnectOk);
  }

  lemma CreateBalanced(m: Mqtt)
    requires Balanced(m) && m.client.handle.None? && m.client.initialized
    ensures Balanced(LibraryCreate(m))
  {
  }

  /**
   What an attempt costs if the connection has dropped and was not cleaned up: the balance is kept exactly if the
   client was released, or the attempt ends before the library is initialized a second time.
   */
  lemma ConnectBalanceExactly(m: Mqtt, env: ConnectEnv)
    requires Balanced(m) && !m.client.connected
    ensures Balanced(Initialized(m, env)) <==>
            Released(m) || StageOf(env) == NotConfigured || StageOf(env) == InitFailed
  {
    if Released(m) {
      AttemptBalanced(m, env);
    } else if StageOf(env) == InitFailed {
      ResetBalanced(m, env);
      CleanedBalanced(m.(client := ResetFor(m.client, env)), env.disconnectOk);
    } else if StageOf(env) != NotConfigured {
      assert Initialized(m, env).library.inits == m.library.inits + 1;
    }
  }

  lemma ResetBalanced(m: Mqtt, env: ConnectEnv)
    requires Balanced(m)
    ensures Balanced(m.(client := ResetFor(m.client, env)))
  {
  }

  /**
   A failed attempt of a released client releases everything again, except that a missing root certificate leaves
   the library initialized.
   */
  lemma FailureReleases(m: Mqtt, env: ConnectEnv)
    requires Released(m) && StageOf(env) != Subscribed
    ensures Released(Initialized(m, env)) <==> StageOf(env) != NoRootCa
    ensures env.connectionType != Undefined ==> StageOf(env) != NoRootCa
  {
  }

  lemma FailureOrSuccess(m: Mqtt, env: ConnectEnv)
    requires Released(m) && env.connectionType != Undefined
    ensures var r := Initialized(m, env); r.client.initialized ==> r.client.connected
  {
  }

  /**
   A handle whose connection has dropped is lost, neither deleted nor live, exactly if the next attempt gets as far as
   creating another.
   */
  lemma LeakExactly(m: Mqtt, env: ConnectEnv, handle: nat)
    requires Balanced(m) && !m.client.connected && m.client.handle == Some(handle)
    ensures var r := Initialized(m, env);
            handle !in r.library.deleted && r.client.handle != Some(handle)
            <==> StageOf(env) == NotSubscribed || StageOf(env) == Subscribed
  {
  }

  // ----- The client as an object -----

  class MqttClient {
    var client: Client
    var library: Library

    function Abstract(): Mqtt
      reads this
    {
      Mqtt(client, library)
    }

    constructor ()
      ensures Abstract() == STATICS
    {
      client := STATICS.client;
      library := STATICS.library;
    }

    method CleanUp(disconnectOk: bool)
      modifies this
      ensures Abstract() == Cleaned(old(Abstract()), disconnectOk)
      ensures Released(Abstract()) && !client.connected && !client.inbound && !client.status
      ensures client.disconnectRequested <==> old(client.disconnectRequested && (client.handle.None? || disconnectOk))
      ensures old(Balanced(Abstract())) ==> Balanced(Abstract())
    {
      if Balanced(Abstract()) {
        CleanedBalanced(Abstract(), disconnectOk);
      }
      client := client.(connected := false);
      if client.handle.Some? {
        if !disconnectOk {
          client := client.(disconnectRequested := false);
        }
        library := library.(deleted := library.deleted + [client.handle.value]);
        client := client.(handle := None);
      }
      if client.initialized {
        library := library.(deinits := library.deinits + 1);
        client := client.(initialized := false);
      }
      client := client.(inbound := false, status := false);
    }

    /** The first half of `iotc_mqtt_client_disconnect`; the second is the clean-up. */
    method RequestDisconnect()
      modifies this
      ensures Abstract() == old(Abstract()).(client := old(client).(disconnectRequested := true))
    {
      client := client.(disconnectRequested := true);
    }

    /**
     `iotc_mqtt_client_init`. It succeeds exactly if the configuration is there, a root certificate can be chosen, the
     library's calls succeed, and one of 150 attempts to connect and one of 3 to subscribe does. Success leaves a
     connected client with the new handle, both callbacks and no request to disconnect; failure of a released client
     leaves it released, but for the missing root certificate; and a balance is kept exactly as stated by
     ConnectBalanceExactly.
     */
    method Init(env: ConnectEnv) returns (ok: bool)
      modifies this
      ensures ok <==>
              && env.configured && env.initOk && (env.serverCa || env.connectionType != Undefined) && env.createOk
              && env.registerOk
              && (exists i: nat :: i < 150 && env.connectOk(i)) && (exists i: nat :: i < 3 && env.subscribeOk(i))
      ensures ok ==> client == Client(Some(old(library.creates)), true, false, true, true, true)
      ensures !ok && env.configured ==> !client.connected && !client.status && !client.disconnectRequested
      ensures !env.configured ==> Abstract() == old(Abstract())
      ensures env.configured && env.initOk && !env.serverCa && env.connectionType == Undefined ==>
                client.inbound == (old(client.inbound) && env.subTopic)
      ensures !ok && old(Released(Abstract())) ==> (Released(Abstract()) <==> StageOf(env) != NoRootCa)
      ensures old(Balanced(Abstract()) && !client.connected) ==>
                (Balanced(Abstract()) <==>
                 old(Released(Abstract())) || StageOf(env) == NotConfigured || StageOf(env) == InitFailed)
      ensures Abstract() == Initialized(old(Abstract()), env)
    {
      ghost var before := Abstract();
      if Balanced(before) && !client.connected {
        ConnectBalanceExactly(before, env);
      }
      ok := Connect(env);
    }

    method Connect(env: ConnectEnv) returns (ok: bool)
      modifies this
      ensures ok <==> StageOf(env) == Subscribed
      ensures Abstract() == Initialized(old(Abstract()), env)
    {
      if !env.configured {
        return false;
      }
      if !env.subTopic {
        client := client.(inbound := false);
      }
      client := client.(status := false, connected := false, disconnectRequested := false);
      if !env.initOk {
        CleanUp(env.disconnectOk);
        return false;
      }
      library := library.(inits := library.inits + 1);
      client := client.(initialized := true);
      if !env.serverCa && env.connectionType == Undefined {
        return false;
      }
      ok := Open(env);
    }

    /** The part after the credentials are set up: creates the handle and establishes the connection. */
    method Open(env: ConnectEnv) returns (ok: bool)
      requires env.configured && env.initOk && HasRootCa(env)
      modifies this
      ensures Abstract() == Opened(old(Abstract()), env)
      ensures ok <==> StageOf(env) == Subscribed
    {
      if !env.createOk {
        CleanUp(env.disconnectOk);
        return false;
      }
      client := client.(handle := Some(library.creates));
      library := library.(creates := library.creates + 1);
      ok := Establish(env);
      if !ok {
        CleanUp(env.disconnectOk);
        return;
      }
      client := client.(connected := true, status := true, inbound := true);
    }

    /** Registers the event callback, connects and subscribes. */
    method Establish(env: ConnectEnv) returns (ok: bool)
      ensures ok <==> env.registerOk && SomeAttempt(env.connectOk, IOTC_MAX_MQTT_CONN_RETRIES)
                      && SomeAttempt(env.subscribeOk, MAX_SUBSCRIBE_RETRIES)
    {
      ok := env.registerOk;
      if ok {
        var attempts: nat;
        ok, attempts := Retry(env.connectOk, IOTC_MAX_MQTT_CONN_RETRIES);
        if ok {
          ok, attempts := Retry(env.subscribeOk, MAX_SUBSCRIBE_RETRIES);
        }
      }
    }

    /** Retries until an attempt succeeds, at most so many times. */
    static method Retry(ok: nat -> bool, limit: nat) returns (success: bool, attempts: nat)
      ensures success <==> SomeAttempt(ok, limit)
      ensures attempts <= limit
      ensures success ==> attempts > 0 && ok(attempts - 1)
      ensures forall i: nat :: i + 1 < attempts ==> !ok(i)
    {
      attempts := 0;
      while attempts < limit
        invariant attempts <= limit
        invariant forall i: nat :: i < attempts ==> !ok(i)
      {
        attempts := attempts + 1;
        if ok(attempts - 1) {
          return true, attempts;
        }
      }
      success := false;
    }
  }
}
