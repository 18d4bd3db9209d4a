/**
 * The glue of main.go: the command-line check, the server configuration that
 * the deploy function builds and exports, the client configuration built from
 * the deployment outputs, and the control flow of `main` around them. Calls
 * into the provisioning engine are represented by their results.
 */
module Orchestrator {
  import opened Wrappers
  import opened Text
  import opened WireGuardConfig
  import opened WireGuardKeys

  datatype Intent = Update | Destroy

  /** The reference reading of the command line: exactly `destroy` or exactly `update`. */
  function SelectIntent(args: seq<string>): Result<Intent, seq<string>>
  {
    if args == ["destroy"] then Success(Destroy)
    else if args == ["update"] then Success(Update)
    else Failure(args)
  }

  /**
   * The argument check of `main`: a length check, then an if/else chain that
   * sets one of the two flags or reports a usage error.
   */
  method ParseArgs(args: seq<string>) returns (destroy: bool, update: bool, usageError: bool)
    ensures |args| != 1 ==> usageError && !destroy && !update
    ensures destroy <==> |args| == 1 && args[0] == "destroy"
    ensures update <==> |args| == 1 && args[0] == "update"
    ensures usageError <==> !destroy && !update
    ensures !(destroy && update)
    ensures SelectIntent(args) ==
      if usageError then Failure(args) else if destroy then Success(Destroy) else Success(Update)
  {
    if |args| != 1 {
      return false, false, true;
    }
    destroy, update, usageError := false, false, false;
    if args[0] == "destroy" {
      destroy := true;
    } else if args[0] == "update" {
      update := true;
    } else {
      usageError := true;
    }
    assert args == [args[0]];
  }

  // ----- the client configuration -----

  /** The deployment outputs that `main` reads, already typed. */
  datatype Outputs = Outputs(
    serverEndpoint: string,
    serverListenPort: int,
    serverPublicKey: string,
    clientPrivateKey: string,
    clientAddress: string)

  const ClientDns := "1.1.1.1"
  const DefaultRoute := "0.0.0.0/0"

  /** `"%s:%d"` of host and port. */
  function HostPort(host: string, port: int): string
  {
    host + ":" + Decimal(port)
  }

  /** The `clientConfig` literal of `main`. */
  function ClientConfig(o: Outputs): Config
  {
    Config(
      Interface(o.clientPrivateKey, 0, o.clientAddress, ClientDns),
      [Peer(o.serverPublicKey, HostPort(o.serverEndpoint, o.serverListenPort), [DefaultRoute])])
  }

  lemma ConfigLinesOnePeer(i: Interface, p: Peer)
    ensures ConfigLines(Config(i, [p])) == InterfaceLines(i) + PeerLines(p)
  {
    var ls := LineGroups(Config(i, [p]));
    assert ls == [InterfaceLines(i), PeerLines(p)];
    assert Flatten(ls[1..]) == PeerLines(p) + Flatten([]);
  }

  /**
   * The rendered client configuration, for every output value: private key,
   * the address line only when the address is non-empty, DNS 1.1.1.1, no
   * listen port; one peer with the server key, the endpoint `host:port` and
   * the default route; each line followed by a newline.
   */
  lemma ClientConfigText(o: Outputs)
    ensures ConfigText(ClientConfig(o)) == Join(
      ["[Interface]", Entry("PrivateKey", o.clientPrivateKey)]
      + Opt(o.clientAddress != "", Entry("Address", o.clientAddress))
      + [Entry("DNS", "1.1.1.1"), "[Peer]", Entry("PublicKey", o.serverPublicKey),
         Entry("Endpoint", o.serverEndpoint + ":" + Decimal(o.serverListenPort)),
         Entry("AllowedIPs", "0.0.0.0/0"), ""], "\n")
  {
    var c := ClientConfig(o);
    ConfigTextAsLines(c);
    ConfigLinesOnePeer(c.iface, c.peers[0]);
    assert Join([DefaultRoute], ",") == "0.0.0.0/0";
    assert HostPort(o.serverEndpoint, o.serverListenPort) != "" by {
      assert |HostPort(o.serverEndpoint, o.serverListenPort)| > 0;
    }
    assert InterfaceLines(c.iface) == ["[Interface]", Entry("PrivateKey", o.clientPrivateKey)]
      + Opt(o.clientAddress != "", Entry("Address", o.clientAddress)) + [Entry("DNS", "1.1.1.1")];
    assert PeerLines(c.peers[0]) == ["[Peer]", Entry("PublicKey", o.serverPublicKey),
         Entry("Endpoint", o.serverEndpoint + ":" + Decimal(o.serverListenPort)),
         Entry("AllowedIPs", "0.0.0.0/0")];
    assert ConfigLines(c) + [""] == ["[Interface]", Entry("PrivateKey", o.clientPrivateKey)]
      + Opt(o.clientAddress != "", Entry("Address", o.clientAddress))
      + [Entry("DNS", "1.1.1.1"), "[Peer]", Entry("PublicKey", o.serverPublicKey),
         Entry("Endpoint", o.serverEndpoint + ":" + Decimal(o.serverListenPort)),
         Entry("AllowedIPs", "0.0.0.0/0"), ""];
  }

  lemma DecimalOf51820()
    ensures Decimal(51820) == "51820"
  {
    assert Digits(5) == "5";
    assert Digits(51) == Digits(5) + "1";
    assert Digits(518) == Digits(51) + "8";
    assert Digits(5182) == Digits(518) + "2";
    assert Digits(51820) == Digits(5182) + "0";
  }

  lemma ExampleInterfaceLines()
    ensures InterfaceLines(Interface("CPRIV", 0, "10.0.0.2/24", ClientDns))
      == ["[Interface]", "PrivateKey = CPRIV", "Address = 10.0.0.2/24", "DNS = 1.1.1.1"]
  {
    assert Entry("PrivateKey", "CPRIV") == "PrivateKey = CPRIV";
    assert Entry("Address", "10.0.0.2/24") == "Address = 10.0.0.2/24";
    assert Entry("DNS", ClientDns) == "DNS = 1.1.1.1";
  }

  lemma ExamplePeerLines()
    ensures PeerLines(Peer("SPUB", HostPort("1.2.3.4", 51820), [DefaultRoute]))
      == ["[Peer]", "PublicKey = SPUB", "Endpoint = 1.2.3.4:51820", "AllowedIPs = 0.0.0.0/0"]
  {
    var p := Peer("SPUB", HostPort("1.2.3.4", 51820), [DefaultRoute]);
    DecimalOf51820();
    assert p.endpoint == "1.2.3.4:51820";
    assert AllowedIpsValue(p) == "0.0.0.0/0";
    assert Entry("PublicKey", "SPUB") == "PublicKey = SPUB";
    assert Entry("Endpoint", "1.2.3.4:51820") == "Endpoint = 1.2.3.4:51820";
    assert Entry("AllowedIPs", "0.0.0.0/0") == "AllowedIPs = 0.0.0.0/0";
  }

  /**
   * The client configuration for the outputs of a typical deployment, line by
   * line: the text is these lines joined by newlines.
   */
  lemma ClientConfigExample()
    ensures var text := ConfigText(ClientConfig(Outputs("1.2.3.4", 51820, "SPUB", "CPRIV", "10.0.0.2/24")));
      var lines := ["[Interface]", "PrivateKey = CPRIV", "Address = 10.0.0.2/24", "DNS = 1.1.1.1",
        "[Peer]", "PublicKey = SPUB", "Endpoint = 1.2.3.4:51820", "AllowedIPs = 0.0.0.0/0", ""];
      text == Join(lines, "\n")
  {
    var c := ClientConfig(Outputs("1.2.3.4", 51820, "SPUB", "CPRIV", "10.0.0.2/24"));
    var lines := ["[Interface]", "PrivateKey = CPRIV", "Address = 10.0.0.2/24", "DNS = 1.1.1.1",
        "[Peer]", "PublicKey = SPUB", "Endpoint = 1.2.3.4:51820", "AllowedIPs = 0.0.0.0/0", ""];
    assert ConfigLines(c) + [""] == lines by {
      ExampleInterfaceLines();
      ExamplePeerLines();
      ConfigLinesOnePeer(c.iface, c.peers[0]);
    }
    assert ConfigText(c) == Join(lines, "\n") by {
      ConfigTextAsLines(c);
    }
  }

  // ----- the server configuration and the exports of the deploy function -----

  const ServerListenPort := 51820
  const ClientAddress := "10.0.0.2/24"

  /** The server configuration after the client peer has been appended. */
  function ServerConfig(serverPrivateKey: string, clientPublicKey: string): Config
  {
    Config(Interface(serverPrivateKey, ServerListenPort, "", ""), [Peer(clientPublicKey, "", [ClientAddress])])
  }

  lemma DecimalOfListenPort()
    ensures Decimal(ServerListenPort) == "51820"
  {
    DecimalOf51820();
  }

  /**
   * The rendered server configuration: private key and listen port 51820, no
   * address and no DNS line; one peer with the client key, no endpoint line,
   * and the client's address as its only allowed IP.
   */
  lemma ServerConfigText(serverPrivateKey: string, clientPublicKey: string)
    ensures ConfigText(ServerConfig(serverPrivateKey, clientPublicKey)) == Join(
      ["[Interface]", Entry("PrivateKey", serverPrivateKey), "ListenPort = 51820",
       "[Peer]", Entry("PublicKey", clientPublicKey), "AllowedIPs = 10.0.0.2/24", ""], "\n")
  {
    var c := ServerConfig(serverPrivateKey, clientPublicKey);
    var lines := ["[Interface]", Entry("PrivateKey", serverPrivateKey), "ListenPort = 51820",
       "[Peer]", Entry("PublicKey", clientPublicKey), "AllowedIPs = 10.0.0.2/24", ""];
    ServerInterfaceLines(serverPrivateKey);
    ServerPeerLines(clientPublicKey);
    ConfigLinesOnePeer(c.iface, c.peers[0]);
    assert ConfigLines(c) + [""] == lines;
    ConfigTextAsLines(c);
  }

  lemma ServerInterfaceLines(serverPrivateKey: string)
    ensures InterfaceLines(Interface(serverPrivateKey, ServerListenPort, "", ""))
      == ["[Interface]", Entry("PrivateKey", serverPrivateKey), "ListenPort = 51820"]
  {
    DecimalOfListenPort();
    assert Entry("ListenPort", "51820") == "ListenPort = 51820";
  }

  lemma ServerPeerLines(clientPublicKey: string)
    ensures PeerLines(Peer(clientPublicKey, "", [ClientAddress]))
      == ["[Peer]", Entry("PublicKey", clientPublicKey), "AllowedIPs = 10.0.0.2/24"]
  {
    var p := Peer(clientPublicKey, "", [ClientAddress]);
    assert AllowedIpsValue(p) == ClientAddress;
    assert Entry("AllowedIPs", ClientAddress) == "AllowedIPs = 10.0.0.2/24";
  }

  /** The values the deploy function exports. */
  datatype Exports = Exports(
    serverEndpoint: string,
    serverListenPort: int,
    serverPublicKey: string,
    clientPrivateKey: string,
    clientPublicKey: string,
    clientAddress: string)

  datatype Deployment = Deployment(serverConfig: Config, serverConfigText: string, exports: Exports)

  /**
   * The key and configuration part of `wireguardHostDeployFunc`: generate the
   * server key pair, start the server configuration, generate the client key
   * pair, append the client as the one peer, render, and export. Either key
   * generation failing ends it with that error. `publicIp` is the address the
   * created instance gets.
   */
  method HostDeploy(serverRandom: Result<Key, string>, clientRandom: Result<Key, string>,
                    x25519: Key -> Result<Key, string>, publicIp: string)
    returns (r: Result<Deployment, string>)
    ensures KeyPair(serverRandom, x25519).Failure? ==> r == Failure(KeyPair(serverRandom, x25519).error)
    ensures KeyPair(serverRandom, x25519).Success? && KeyPair(clientRandom, x25519).Failure? ==>
      r == Failure(KeyPair(clientRandom, x25519).error)
    ensures r.Success? <==>
      KeyPair(serverRandom, x25519).Success? && KeyPair(clientRandom, x25519).Success?
    ensures r.Success? ==>
      var (serverPrivateKey, serverPublicKey) := KeyPair(serverRandom, x25519).value;
      var (clientPrivateKey, clientPublicKey) := KeyPair(clientRandom, x25519).value;
      && r.value.serverConfig == ServerConfig(serverPrivateKey, clientPublicKey)
      && r.value.serverConfigText == ConfigText(r.value.serverConfig)
      && r.value.exports == Exports(publicIp, ServerListenPort, serverPublicKey,
                                    clientPrivateKey, clientPublicKey, ClientAddress)
    ensures r.Success? ==> r.value.exports.serverListenPort == r.value.serverConfig.iface.listenPort
  {
    var serverPrivateKey, serverPublicKey, err := GenerateKeyPair(serverRandom, x25519);
    if err.Some? {
      return Failure(err.value);
    }
    var serverListenPort := ServerListenPort;
    var serverConfig := Config(Interface(serverPrivateKey, serverListenPort, "", ""), []);
    var clientPrivateKey, clientPublicKey, err2 := GenerateKeyPair(clientRandom, x25519);
    if err2.Some? {
      return Failure(err2.value);
    }
    var clientAddress := ClientAddress;
    serverConfig := serverConfig.(peers := serverConfig.peers + [Peer(clientPublicKey, "", [clientAddress])]);
    var text := ConfigString(serverConfig);
    var exports := Exports(publicIp, serverListenPort, serverPublicKey,
                           clientPrivateKey, clientPublicKey, clientAddress);
    r := Success(Deployment(serverConfig, text, exports));
  }

  /** The outputs `main` reads back from the exports of a deployment. */
  function OutputsOf(e: Exports): Outputs
  {
    Outputs(e.serverEndpoint, e.serverListenPort, e.serverPublicKey, e.clientPrivateKey, e.clientAddress)
  }

  /**
   * The two configurations describe one tunnel from its two ends: the server
   * lists the client's public key as its peer, the client lists the server's
   * public key and reaches it at the exported address and listen port.
   */
  lemma TunnelEnds(serverPrivateKey: string, e: Exports)
    requires e.serverListenPort == ServerListenPort && e.clientAddress == ClientAddress
    ensures ServerConfig(serverPrivateKey, e.clientPublicKey).peers[0].publicKey == e.clientPublicKey
    ensures ClientConfig(OutputsOf(e)).peers[0].publicKey == e.serverPublicKey
    ensures ClientConfig(OutputsOf(e)).peers[0].endpoint == e.serverEndpoint + ":51820"
    ensures ClientConfig(OutputsOf(e)).iface.address == ServerConfig(serverPrivateKey, e.clientPublicKey).peers[0].allowedIps[0]
  {
    DecimalOfListenPort();
  }

  // ----- main -----

  datatype Stage = Setup | TearDown | Apply

  /** How a run of the program ends. */
  datatype Exit =
    | UsageExit(args: seq<string>)
    | Abort(stage: Stage, error: string)
    | Destroyed
    | Provisioned(clientConfig: string)

  /**
   * `main`. `setup` is the first error of loading the environment and starting
   * the stack (registration, plugin installation, refresh), `destroyResult`
   * the error of tearing down, `upResult` the outcome of bringing the
   * deployment up. Only the update intent with every step successful prints
   * the client configuration.
   */
  method Run(args: seq<string>, setup: Option<string>, destroyResult: Option<string>,
             upResult: Result<Outputs, string>)
    returns (exit: Exit)
    ensures SelectIntent(args).Failure? ==> exit == UsageExit(args)
    ensures SelectIntent(args).Success? && setup.Some? ==> exit == Abort(Setup, setup.value)
    ensures SelectIntent(args) == Success(Destroy) && setup.None? ==>
      exit == if destroyResult.Some? then Abort(TearDown, destroyResult.value) else Destroyed
    ensures SelectIntent(args) == Success(Update) && setup.None? ==>
      exit == match upResult
              case Failure(e) => Abort(Apply, e)
              case Success(o) => Provisioned(ConfigText(ClientConfig(o)))
  {
    var destroy, update, usageError := ParseArgs(args);
    if usageError {
      return UsageExit(args);
    }
    if setup.Some? {
      return Abort(Setup, setup.value);
    }
    if destroy {
      if destroyResult.Some? {
        return Abort(TearDown, destroyResult.value);
      }
      return Destroyed;
    }
    assert update;
    if upResult.Failure? {
      return Abort(Apply, upResult.error);
    }
    var clientConfig := ClientConfig(upResult.value);
    var text := ConfigString(clientConfig);
    exit := Provisioned(text);
  }
}
