/**
 * ClsWspMqttVerticle: the WebSocket MQTT listener's admission counter, shared
 * by every instance of the verticle, and the listener fields its option
 * initialisation derives from configuration.
 */
module WspVerticle {

  /** Java's int. */
  newtype int32 = x: int | -0x8000_0000 <= x < 0x8000_0000

  const INT_MIN: int32 := -0x8000_0000
  const INT_MAX: int32 := 0x7fff_ffff

  /** AtomicInteger.incrementAndGet arithmetic: add one, wrapping in two's complement. */
  function Inc(x: int32): (r: int32)
    ensures (r as int - x as int - 1) % 0x1_0000_0000 == 0
    ensures x < INT_MAX ==> r as int == x as int + 1
  {
    if x == INT_MAX then INT_MIN else x + 1
  }

  /** AtomicInteger.decrementAndGet arithmetic: subtract one, with no floor at zero. */
  function Dec(x: int32): (r: int32)
    ensures (x as int - r as int - 1) % 0x1_0000_0000 == 0
    ensures x > INT_MIN ==> r as int == x as int - 1
  {
    if x == INT_MIN then INT_MAX else x - 1
  }

  /** A decrement undoes an increment and an increment undoes a decrement. */
  lemma DecUndoesInc(x: int32)
    ensures Dec(Inc(x)) == x && Inc(Dec(x)) == x
  {
  }

  /** The counter after `n` increments starting from `x`. */
  function Increments(x: int32, n: nat): int32
  {
    if n == 0 then x else Inc(Increments(x, n - 1))
  }

  /** From zero, up to INT_MAX increments count exactly. */
  lemma {:induction false} IncrementsFromZero(n: nat)
    requires n <= INT_MAX as int
    ensures Increments(0, n) as int == n
  {
    if n > 0 {
      IncrementsFromZero(n - 1);
    }
  }

  /**
   * Starting from zero with only increments, the listener is limited exactly
   * once `limit` connections have been counted: not before, and from then on
   * (as long as the count does not wrap). A negative limit refuses from the start.
   */
  lemma AdmissionThreshold(limit: int32, n: nat)
    requires n <= INT_MAX as int
    ensures Increments(0, n) >= limit <==> n >= limit as int
  {
    IncrementsFromZero(n);
  }

  /** Integer.toString of a non-negative value: its decimal digits, no leading zero. */
  function Digits(n: nat): (s: string)
    ensures |s| > 0
    ensures forall i :: 0 <= i < |s| ==> '0' <= s[i] <= '9'
    ensures |s| > 1 ==> s[0] != '0'
  {
    if n < 10 then ['0' + n as char]
    else Digits(n / 10) + ['0' + (n % 10) as char]
  }

  /** Integer.toString: a minus sign before the digits of a negative value. */
  function IntToString(n: int): string
  {
    if n < 0 then "-" + Digits(-n) else Digits(n)
  }

  /** The value of a string of decimal digits. */
  function DigitsValue(s: string): nat
  {
    if s == [] then 0
    else 10 * DigitsValue(s[..|s| - 1]) + (if '0' <= s[|s| - 1] <= '9' then (s[|s| - 1] - '0') as nat else 0)
  }

  /** Integer.parseInt on what Integer.toString produces. */
  function ParseInt(s: string): int
  {
    if |s| > 0 && s[0] == '-' then -(DigitsValue(s[1..]) as int) else DigitsValue(s)
  }

  lemma {:induction false} DigitsRoundTrip(n: nat)
    ensures DigitsValue(Digits(n)) == n
  {
    if n >= 10 {
      DigitsRoundTrip(n / 10);
      var s := Digits(n);
      assert s[..|s| - 1] == Digits(n / 10);
    }
  }

  /** The decimal text of a port or count reads back as the same number. */
  lemma IntToStringRoundTrip(n: int)
    ensures ParseInt(IntToString(n)) == n
  {
    if n < 0 {
      DigitsRoundTrip(-n);
      assert ("-" + Digits(-n))[1..] == Digits(-n);
    } else {
      DigitsRoundTrip(n);
    }
  }

  /** The configuration values initOptions reads. */
  datatype WsConfig = WsConfig(
    listenAddr: string,       // Config.getInstanceListenAddr
    wsPort: int32,            // Config.getWsPort
    wsMaxConns: int32,        // Config.getWsMaxConns
    messageMaxSize: int32,    // Config.getMqttMessageMaxSize
    connectTimeoutS: int32,   // Config.getMqttClientConnectTimeoutS
    sslEnable: bool)          // Config.isMqttSslEnable

  /** The SysConst labels initOptions concatenates. */
  datatype Labels = Labels(mqtt: string, colon: string, websocket: string, sslWebsocket: string)

  /** The MqttServerOptions settings initOptions makes (key and certificate paths aside). */
  datatype ServerOptions = ServerOptions(host: string, port: int32, maxMessageSize: int32,
                                         timeoutOnConnect: int32, useWebSocket: bool, ssl: bool)

  /** The listener's protocol label: the MQTT label, the separator, then the transport label. */
  function ProtocolLabel(labels: Labels, ssl: bool): string
  {
    labels.mqtt + labels.colon + (if ssl then labels.sslWebsocket else labels.websocket)
  }

  /** The listener string: the listen address, the separator, then the port in decimal. */
  function ListenerString(labels: Labels, addr: string, port: int32): string
  {
    addr + labels.colon + IntToString(port as int)
  }

  /** The listener string splits back into the listen address and the port. */
  lemma ListenerRoundTrip(labels: Labels, addr: string, port: int32)
    ensures ListenerString(labels, addr, port)[..|addr|] == addr
    ensures ParseInt(ListenerString(labels, addr, port)[|addr| + |labels.colon|..]) == port as int
  {
    var s := ListenerString(labels, addr, port);
    assert s[|addr| + |labels.colon|..] == IntToString(port as int);
    IntToStringRoundTrip(port as int);
  }

  /** The AtomicInteger behind the static wsConnCount field. */
  class ConnCounter {
    var count: int32

    constructor ()
      ensures count == 0
    {
      count := 0;
    }
  }

  /**
   * A WebSocket listener verticle. Its connection count is class-wide: every
   * instance holds the one shared counter and none owns it alone.
   */
  class ClsWspMqttVerticle {
    const wsConnCount: ConnCounter
    var protocol: string
    var port: int32
    var listener: string
    var connMaxLimit: int32

    constructor (shared: ConnCounter)
      ensures wsConnCount == shared
      ensures shared.count == old(shared.count)
    {
      wsConnCount := shared;
    }

    /**
     * initOptions: sets protocol, port, listener and connection limit from the
     * configuration (the protocol label switches to the SSL WebSocket label
     * when SSL is enabled) and returns the server options; the connection
     * count is not touched.
     */
    method InitOptions(cfg: WsConfig, labels: Labels) returns (options: ServerOptions)
      modifies this
      ensures protocol == ProtocolLabel(labels, cfg.sslEnable)
      ensures port == cfg.wsPort
      ensures listener == ListenerString(labels, cfg.listenAddr, cfg.wsPort)
      ensures connMaxLimit == cfg.wsMaxConns
      ensures options.host == cfg.listenAddr && options.port == cfg.wsPort
      ensures options.maxMessageSize == cfg.messageMaxSize && options.timeoutOnConnect == cfg.connectTimeoutS
      ensures options.useWebSocket && options.ssl == cfg.sslEnable
      ensures wsConnCount.count == old(wsConnCount.count)
    {
      protocol := labels.mqtt + labels.colon + labels.websocket;
      port := cfg.wsPort;
      listener := cfg.listenAddr + labels.colon + IntToString(cfg.wsPort as int);
      connMaxLimit := cfg.wsMaxConns;
      options := ServerOptions(cfg.listenAddr, cfg.wsPort, cfg.messageMaxSize, cfg.connectTimeoutS, true, false);
      if cfg.sslEnable {
        protocol := labels.mqtt + labels.colon + labels.sslWebsocket;
        options := options.(ssl := true);
      }
    }

    /** limited: the shared count has reached or passed the connection limit. */
    method Limited() returns (b: bool)
      ensures b <==> wsConnCount.count >= connMaxLimit
    {
      b := wsConnCount.count >= connMaxLimit;
    }

    /** incrementAndGetConnCount: one more connection, the new count returned. */
    method IncrementAndGetConnCount() returns (n: int32)
      modifies wsConnCount
      ensures wsConnCount.count == Inc(old(wsConnCount.count))
      ensures n == wsConnCount.count
    {
      wsConnCount.count := Inc(wsConnCount.count);
      n := wsConnCount.count;
    }

    /** decrementAndGetConnCount: one connection fewer, the new count returned. */
    method DecrementAndGetConnCount() returns (n: int32)
      modifies wsConnCount
      ensures wsConnCount.count == Dec(old(wsConnCount.count))
      ensures n == wsConnCount.count
    {
      wsConnCount.count := Dec(wsConnCount.count);
      n := wsConnCount.count;
    }

    /** getConnCount: the shared count, unchanged. */
    method GetConnCount() returns (n: int32)
      ensures n == wsConnCount.count
    {
      n := wsConnCount.count;
    }
  }

  /**
   * The count is class-wide: two verticles built on the one counter see each
   * other's connections, so an increment through one is what the other reads
   * and limits on.
   */
  method SharedAcrossInstances(shared: ConnCounter, limit: int32) returns (seen: int32, limited: bool)
    modifies shared
    ensures seen == Inc(old(shared.count)) && shared.count == seen
    ensures limited <==> seen >= limit
  {
    var a := new ClsWspMqttVerticle(shared);
    var b := new ClsWspMqttVerticle(shared);
    b.connMaxLimit := limit;
    var n := a.IncrementAndGetConnCount();
    seen := b.GetConnCount();
    limited := b.Limited();
  }
}
