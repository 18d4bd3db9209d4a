/**
 * The WireGuard configuration record of wireguard/config.go and its rendering
 * into the INI-like text that `wg-quick` reads.
 *
 * The rendering is specified line by line: a block is its lines joined by
 * `"\n"`, a configuration is each block followed by one `"\n"`. The methods
 * `InterfaceString`, `PeerString` and `ConfigString` build the text the way the
 * Go `String` methods do, by appending to `s`, and are proved to produce the
 * specified text. Reading the text back (`Split` on newlines, then `Lookup` by
 * key) recovers exactly the fields that the guards let through.
 */
module WireGuardConfig {
  import opened Text

  datatype Interface = Interface(privateKey: string, listenPort: int, address: string, dns: string)

  datatype Peer = Peer(publicKey: string, endpoint: string, allowedIps: seq<string>)

  datatype Config = Config(iface: Interface, peers: seq<Peer>)

  // ----- the specification of the rendering -----

  /** An optional line: present or absent. */
  function Opt(present: bool, line: string): seq<string>
  {
    if present then [line] else []
  }

  /**
   * The lines of an `[Interface]` block, in the fixed field order: the header,
   * the private key, and the port, address and DNS lines each only when set.
   */
  function InterfaceLines(i: Interface): seq<string>
  {
    ["[Interface]"] + Opt(true, Entry("PrivateKey", i.privateKey))
    + Opt(i.listenPort != 0, Entry("ListenPort", Decimal(i.listenPort)))
    + Opt(i.address != "", Entry("Address", i.address))
    + Opt(i.dns != "", Entry("DNS", i.dns))
  }

  /** The value of the `AllowedIPs` line: the addresses joined by commas. */
  function AllowedIpsValue(p: Peer): string
  {
    Join(p.allowedIps, ",")
  }

  /**
   * The lines of a `[Peer]` block, in the fixed field order: the header, the
   * public key, the endpoint only when set, and always the allowed IPs.
   */
  function PeerLines(p: Peer): seq<string>
  {
    ["[Peer]"] + Opt(true, Entry("PublicKey", p.publicKey))
    + Opt(p.endpoint != "", Entry("Endpoint", p.endpoint))
    + Opt(true, Entry("AllowedIPs", AllowedIpsValue(p)))
  }

  /** The specified text of an `[Interface]` block: its lines joined by newlines. */
  function InterfaceText(i: Interface): string
  {
    Join(InterfaceLines(i), "\n")
  }

  /** The specified text of a `[Peer]` block: its lines joined by newlines. */
  function PeerText(p: Peer): string
  {
    Join(PeerLines(p), "\n")
  }

  /** The rendered blocks of a configuration: the interface, then every peer in list order. */
  function Blocks(c: Config): (bs: seq<string>)
    ensures |bs| == |c.peers| + 1
  {
    [InterfaceText(c.iface)] + seq(|c.peers|, k requires 0 <= k < |c.peers| => PeerText(c.peers[k]))
  }

  /** Every block followed by exactly one `"\n"`; no blank line between blocks. */
  function ConfigText(c: Config): string
  {
    Terminated(Blocks(c))
  }

  // ----- the Go `String` methods -----

  /** `Interface.String`: the header and private key, then each guarded field. */
  method InterfaceString(i: Interface) returns (s: string)
    ensures s == InterfaceText(i)
  {
    InterfacePrefixes();
    ghost var lines := ["[Interface]"] + Opt(true, Entry("PrivateKey", i.privateKey));
    s := "[Interface]\nPrivateKey = " + i.privateKey;
    HeadIsJoin("[Interface]\nPrivateKey = ", "[Interface]", "PrivateKey", i.privateKey);
    AppendEntry(lines, s, i.listenPort != 0, "\nListenPort = ", "ListenPort", Decimal(i.listenPort));
    if i.listenPort != 0 {
      s := s + "\nListenPort = " + Decimal(i.listenPort);
    }
    lines := lines + Opt(i.listenPort != 0, Entry("ListenPort", Decimal(i.listenPort)));
    AppendEntry(lines, s, i.address != "", "\nAddress = ", "Address", i.address);
    if i.address != "" {
      s := s + "\nAddress = " + i.address;
    }
    lines := lines + Opt(i.address != "", Entry("Address", i.address));
    AppendEntry(lines, s, i.dns != "", "\nDNS = ", "DNS", i.dns);
    if i.dns != "" {
      s := s + "\nDNS = " + i.dns;
    }
    lines := lines + Opt(i.dns != "", Entry("DNS", i.dns));
    assert lines == InterfaceLines(i);
  }

  /** `Peer.String`: the header and public key, the guarded endpoint, then the allowed IPs. */
  method PeerString(p: Peer) returns (s: string)
    ensures s == PeerText(p)
  {
    PeerPrefixes();
    ghost var lines := ["[Peer]"] + Opt(true, Entry("PublicKey", p.publicKey));
    s := "[Peer]\nPublicKey = " + p.publicKey;
    HeadIsJoin("[Peer]\nPublicKey = ", "[Peer]", "PublicKey", p.publicKey);
    AppendEntry(lines, s, p.endpoint != "", "\nEndpoint = ", "Endpoint", p.endpoint);
    if p.endpoint != "" {
      s := s + "\nEndpoint = " + p.endpoint;
    }
    lines := lines + Opt(p.endpoint != "", Entry("Endpoint", p.endpoint));
    AppendEntry(lines, s, true, "\nAllowedIPs = ", "AllowedIPs", Join(p.allowedIps, ","));
    s := s + "\nAllowedIPs = " + Join(p.allowedIps, ",");
    lines := lines + Opt(true, Entry("AllowedIPs", Join(p.allowedIps, ",")));
    assert lines == PeerLines(p);
  }

  /** The literals `Interface.String` appends, each a newline, a key and `" = "`. */
  lemma InterfacePrefixes()
    ensures "[Interface]\nPrivateKey = " == "[Interface]" + "\n" + "PrivateKey" + " = "
    ensures "\nListenPort = " == "\n" + "ListenPort" + " = "
    ensures "\nAddress = " == "\n" + "Address" + " = "
    ensures "\nDNS = " == "\n" + "DNS" + " = "
  {
  }

  /** The literals `Peer.String` appends, each a newline, a key and `" = "`. */
  lemma PeerPrefixes()
    ensures "[Peer]\nPublicKey = " == "[Peer]" + "\n" + "PublicKey" + " = "
    ensures "\nEndpoint = " == "\n" + "Endpoint" + " = "
    ensures "\nAllowedIPs = " == "\n" + "AllowedIPs" + " = "
  {
  }

  /** The first two lines of a block, a header and one entry, joined: `prefix` is everything before the value. */
  lemma HeadIsJoin(prefix: string, header: string, key: string, value: string)
    requires prefix == header + "\n" + key + " = "
    ensures Join([header] + Opt(true, Entry(key, value)), "\n") == prefix + value
    ensures header + "\n" + Entry(key, value) == prefix + value
  {
    assert [header] + Opt(true, Entry(key, value)) == [header, Entry(key, value)];
  }

  /**
   * Appending `"\n<key> = " + value` to a join of lines appends the line
   * `<key> = <value>`; appending nothing appends no line.
   */
  lemma AppendEntry(lines: seq<string>, s: string, present: bool, prefix: string, key: string, value: string)
    requires |lines| > 0 && s == Join(lines, "\n")
    requires prefix == "\n" + key + " = "
    ensures (if present then s + prefix + value else s) == Join(lines + Opt(present, Entry(key, value)), "\n")
  {
    if present {
      JoinSnoc(lines, Entry(key, value), "\n");
      assert s + prefix + value == s + "\n" + Entry(key, value);
    } else {
      assert lines + Opt(present, Entry(key, value)) == lines;
    }
  }

  /** `Config.String`: the interface block and `"\n"`, then each peer block and `"\n"`. */
  method ConfigString(c: Config) returns (s: string)
    ensures s == ConfigText(c)
  {
    var head := InterfaceString(c.iface);
    s := head + "\n";
    assert Blocks(c)[..1] == [head];
    for k := 0 to |c.peers|
      invariant s == Terminated(Blocks(c)[..k + 1])
    {
      var block := PeerString(c.peers[k]);
      BlocksPrefix(c, k);
      TerminatedSnoc(Blocks(c)[..k + 1], block);
      s := s + block + "\n";
    }
    assert Blocks(c)[..|c.peers| + 1] == Blocks(c);
  }

  /** One more block of the configuration: the next peer's text. */
  lemma BlocksPrefix(c: Config, k: nat)
    requires k < |c.peers|
    ensures Blocks(c)[..k + 2] == Blocks(c)[..k + 1] + [PeerText(c.peers[k])]
  {
    assert Blocks(c)[k + 1] == PeerText(c.peers[k]);
  }

  // ----- properties of the text -----

  /** The header and private key that every interface block begins with. */
  function InterfaceHead(i: Interface): string
  {
    "[Interface]\nPrivateKey = " + i.privateKey
  }

  /** Every interface rendering begins with `"[Interface]\nPrivateKey = "` and the private key. */
  lemma InterfaceBeginsWithHead(i: Interface)
    ensures var t, head := InterfaceText(i), "[Interface]\nPrivateKey = " + i.privateKey;
      |t| >= |head| && t[..|head|] == head
  {
    InterfacePrefixes();
    HeadIsJoin("[Interface]\nPrivateKey = ", "[Interface]", "PrivateKey", i.privateKey);
    JoinPrefix(InterfaceLines(i), "\n", "[Interface]\nPrivateKey = " + i.privateKey);
  }

  /** Every peer rendering begins with `"[Peer]\nPublicKey = "` and the public key. */
  lemma PeerBeginsWithHead(p: Peer)
    ensures var t, head := PeerText(p), "[Peer]\nPublicKey = " + p.publicKey;
      |t| >= |head| && t[..|head|] == head
  {
    PeerPrefixes();
    HeadIsJoin("[Peer]\nPublicKey = ", "[Peer]", "PublicKey", p.publicKey);
    JoinPrefix(PeerLines(p), "\n", "[Peer]\nPublicKey = " + p.publicKey);
  }

  /** A join of at least two elements: the first two, then the rest. */
  lemma JoinHead(xs: seq<string>, sep: string)
    requires |xs| >= 2
    ensures Join(xs, sep) == xs[0] + sep + xs[1] + Tail(xs[2..], sep)
  {
    assert xs == xs[..2] + xs[2..];
    JoinTail(xs[..2], xs[2..], sep);
    assert Join(xs[..2], sep) == xs[0] + sep + xs[1];
  }

  /** A join of at least two elements begins with the first two and the separator between them. */
  lemma JoinPrefix(xs: seq<string>, sep: string, head: string)
    requires |xs| >= 2 && head == xs[0] + sep + xs[1]
    ensures var t := Join(xs, sep);
      |t| >= |head| && t[..|head|] == head && t[|head|..] == Tail(xs[2..], sep)
  {
    JoinHead(xs, sep);
    PrefixOf(Join(xs, sep), head, Tail(xs[2..], sep));
  }

  lemma PrefixOf(t: string, head: string, tail: string)
    requires t == head + tail
    ensures |t| >= |head| && t[..|head|] == head && t[|head|..] == tail
  {
  }

  /**
   * Every interface rendering begins with its head. A non-zero port inserts
   * exactly `"\nListenPort = <decimal>"` right after the head; the text after
   * the head is otherwise the same as with no port.
   */
  lemma InterfaceListenPortInsertion(i: Interface, port: int)
    requires port != 0
    ensures var head := InterfaceHead(i);
      var without := InterfaceText(i.(listenPort := 0));
      |without| >= |head| && without[..|head|] == head &&
      InterfaceText(i.(listenPort := port)) == head + ("\nListenPort = " + Decimal(port)) + without[|head|..]
  {
    var xs := InterfaceLines(i.(listenPort := 0));
    var portLine := Entry("ListenPort", Decimal(port));
    assert InterfaceLines(i.(listenPort := port)) == xs[..2] + [portLine] + xs[2..] by {
      var h := ["[Interface]"] + Opt(true, Entry("PrivateKey", i.privateKey));
      var rest := Opt(i.address != "", Entry("Address", i.address)) + Opt(i.dns != "", Entry("DNS", i.dns));
      assert xs == h + rest;
      assert xs[..2] == h && xs[2..] == rest;
    }
    InterfacePrefixes();
    HeadIsJoin("[Interface]\nPrivateKey = ", "[Interface]", "PrivateKey", i.privateKey);
    EntryAfterNewline("\nListenPort = ", "ListenPort", Decimal(port));
    JoinInsertAfterTwo(xs, portLine, "\n", InterfaceHead(i));
  }

  lemma EntryAfterNewline(prefix: string, key: string, value: string)
    requires prefix == "\n" + key + " = "
    ensures "\n" + Entry(key, value) == prefix + value
  {
  }

  /**
   * Inserting an element after the first two of a join adds one separator and
   * the element right after the first two; the rest of the text is unchanged.
   */
  lemma JoinInsertAfterTwo(xs: seq<string>, y: string, sep: string, head: string)
    requires |xs| >= 2 && head == xs[0] + sep + xs[1]
    ensures var t := Join(xs, sep);
      |t| >= |head| && t[..|head|] == head &&
      Join(xs[..2] + [y] + xs[2..], sep) == head + (sep + y) + t[|head|..]
  {
    var ys := xs[..2] + [y] + xs[2..];
    assert ys[2..] == [y] + xs[2..];
    JoinTail([y], xs[2..], sep);
    JoinHead(ys, sep);
    JoinPrefix(xs, sep, head);
  }

  /** What follows the join of a non-empty list when more elements are appended. */
  function Tail(rest: seq<string>, sep: string): string
  {
    if rest == [] then "" else sep + Join(rest, sep)
  }

  lemma JoinTail(xs: seq<string>, rest: seq<string>, sep: string)
    requires |xs| > 0
    ensures Join(xs + rest, sep) == Join(xs, sep) + Tail(rest, sep)
  {
    if rest == [] {
      assert xs + rest == xs;
    } else {
      JoinAppend(xs, rest, sep);
    }
  }

  /** With one-line fields, no interface line holds a newline and none is empty. */
  lemma InterfaceLinesProper(i: Interface)
    requires '\n' !in i.privateKey && '\n' !in i.address && '\n' !in i.dns
    ensures ProperLines(InterfaceLines(i))
  {
    var d := Decimal(i.listenPort);
    DecimalChars(i.listenPort);
    assert '\n' !in d by {
      assert forall j :: 0 <= j < |d| ==> d[j] != '\n';
    }
    var a, b, c := ["[Interface]"], Opt(true, Entry("PrivateKey", i.privateKey)),
      Opt(i.listenPort != 0, Entry("ListenPort", d));
    var e, f := Opt(i.address != "", Entry("Address", i.address)), Opt(i.dns != "", Entry("DNS", i.dns));
    assert ProperLines(a);
    ProperOpt(true, "PrivateKey", i.privateKey);
    ProperOpt(i.listenPort != 0, "ListenPort", d);
    ProperOpt(i.address != "", "Address", i.address);
    ProperOpt(i.dns != "", "DNS", i.dns);
    ProperAppend(a, b);
    ProperAppend(a + b, c);
    ProperAppend(a + b + c, e);
    ProperAppend(a + b + c + e, f);
  }

  /** With one-line fields, no peer line holds a newline and none is empty. */
  lemma PeerLinesProper(p: Peer)
    requires '\n' !in p.publicKey && '\n' !in p.endpoint
    requires forall k :: 0 <= k < |p.allowedIps| ==> '\n' !in p.allowedIps[k]
    ensures ProperLines(PeerLines(p))
  {
    JoinNoChar(p.allowedIps, ",", '\n');
    var a, b := ["[Peer]"], Opt(true, Entry("PublicKey", p.publicKey));
    var c, d := Opt(p.endpoint != "", Entry("Endpoint", p.endpoint)), Opt(true, Entry("AllowedIPs", AllowedIpsValue(p)));
    assert ProperLines(a);
    ProperOpt(true, "PublicKey", p.publicKey);
    ProperOpt(p.endpoint != "", "Endpoint", p.endpoint);
    ProperOpt(true, "AllowedIPs", AllowedIpsValue(p));
    ProperAppend(a, b);
    ProperAppend(a + b, c);
    ProperAppend(a + b + c, d);
  }

  /** An optional entry whose key and value hold no newline is a proper line or none. */
  lemma ProperOpt(present: bool, key: string, value: string)
    requires '\n' !in key && '\n' !in value
    ensures ProperLines(Opt(present, Entry(key, value)))
  {
    if present {
      assert Entry(key, value)[|key|] == ' ';
    }
  }

  lemma {:induction false} JoinNoChar(xs: seq<string>, sep: string, c: char)
    requires c !in sep
    requires forall k :: 0 <= k < |xs| ==> c !in xs[k]
    ensures c !in Join(xs, sep)
    decreases |xs|
  {
    if |xs| > 1 {
      JoinNoChar(xs[1..], sep, c);
    }
  }

  /** Keys whose first letters differ never match each other's lines. */
  lemma LookupOpt(present: bool, key: string, value: string, probe: string)
    requires |key| > 0 && |probe| > 0 && (key == probe || key[0] != probe[0])
    ensures Lookup(Opt(present, Entry(key, value)), probe) == if present && key == probe then [value] else []
  {
    if present {
      if key == probe {
        LookupHit(key, value);
      } else {
        LookupMiss(Entry(key, value), probe, 0);
      }
    }
  }

  /** Looking a key up in five concatenated groups of lines. */
  lemma LookupFive(a: seq<string>, b: seq<string>, c: seq<string>, d: seq<string>, e: seq<string>, key: string)
    ensures Lookup(a + b + c + d + e, key)
      == Lookup(a, key) + Lookup(b, key) + Lookup(c, key) + Lookup(d, key) + Lookup(e, key)
  {
    LookupAppend(a + b + c + d, e, key);
    LookupAppend(a + b + c, d, key);
    LookupAppend(a + b, c, key);
    LookupAppend(a, b, key);
  }

  /**
   * The values that the interface lines hold under each of the four keys:
   * one private key; a port iff it is non-zero; an address iff it is
   * non-empty; a DNS server iff it is non-empty.
   */
  lemma InterfaceLookup(i: Interface)
    ensures Lookup(InterfaceLines(i), "PrivateKey") == [i.privateKey]
    ensures Lookup(InterfaceLines(i), "ListenPort") == if i.listenPort != 0 then [Decimal(i.listenPort)] else []
    ensures Lookup(InterfaceLines(i), "Address") == if i.address != "" then [i.address] else []
    ensures Lookup(InterfaceLines(i), "DNS") == if i.dns != "" then [i.dns] else []
  {
    InterfaceLookupPrivateKey(i);
    InterfaceLookupListenPort(i);
    InterfaceLookupAddress(i);
    InterfaceLookupDNS(i);
  }

  /** One lemma per key: the lookup of that key in the interface lines. */
  lemma InterfaceLookupPrivateKey(i: Interface)
    ensures Lookup(InterfaceLines(i), "PrivateKey") == [i.privateKey]
  {
    var key := "PrivateKey";
    LookupOpt(true, "PrivateKey", i.privateKey, key);
    LookupOpt(i.listenPort != 0, "ListenPort", Decimal(i.listenPort), key);
    LookupOpt(i.address != "", "Address", i.address, key);
    LookupOpt(i.dns != "", "DNS", i.dns, key);
    InterfaceLookupParts(i, key);
    LookupMiss("[Interface]", key, 0);
  }

  lemma InterfaceLookupListenPort(i: Interface)
    ensures Lookup(InterfaceLines(i), "ListenPort") == if i.listenPort != 0 then [Decimal(i.listenPort)] else []
  {
    var key := "ListenPort";
    LookupOpt(true, "PrivateKey", i.privateKey, key);
    LookupOpt(i.listenPort != 0, "ListenPort", Decimal(i.listenPort), key);
    LookupOpt(i.address != "", "Address", i.address, key);
    LookupOpt(i.dns != "", "DNS", i.dns, key);
    InterfaceLookupParts(i, key);
    LookupMiss("[Interface]", key, 0);
  }

  lemma InterfaceLookupAddress(i: Interface)
    ensures Lookup(InterfaceLines(i), "Address") == if i.address != "" then [i.address] else []
  {
    var key := "Address";
    LookupOpt(true, "PrivateKey", i.privateKey, key);
    LookupOpt(i.listenPort != 0, "ListenPort", Decimal(i.listenPort), key);
    LookupOpt(i.address != "", "Address", i.address, key);
    LookupOpt(i.dns != "", "DNS", i.dns, key);
    InterfaceLookupParts(i, key);
    LookupMiss("[Interface]", key, 0);
  }

  lemma InterfaceLookupDNS(i: Interface)
    ensures Lookup(InterfaceLines(i), "DNS") == if i.dns != "" then [i.dns] else []
  {
    var key := "DNS";
    LookupOpt(true, "PrivateKey", i.privateKey, key);
    LookupOpt(i.listenPort != 0, "ListenPort", Decimal(i.listenPort), key);
    LookupOpt(i.address != "", "Address", i.address, key);
    LookupOpt(i.dns != "", "DNS", i.dns, key);
    InterfaceLookupParts(i, key);
    LookupMiss("[Interface]", key, 0);
  }

  /** The lookup of a key in the interface lines is the lookups in the header and the four entries. */
  lemma InterfaceLookupParts(i: Interface, key: string)
    ensures Lookup(InterfaceLines(i), key)
      == Lookup(["[Interface]"], key)
      + Lookup(Opt(true, Entry("PrivateKey", i.privateKey)), key)
      + Lookup(Opt(i.listenPort != 0, Entry("ListenPort", Decimal(i.listenPort))), key)
      + Lookup(Opt(i.address != "", Entry("Address", i.address)), key)
      + Lookup(Opt(i.dns != "", Entry("DNS", i.dns)), key)
  {
    var a, b, c := ["[Interface]"], Opt(true, Entry("PrivateKey", i.privateKey)),
      Opt(i.listenPort != 0, Entry("ListenPort", Decimal(i.listenPort)));
    var d, e := Opt(i.address != "", Entry("Address", i.address)), Opt(i.dns != "", Entry("DNS", i.dns));
    LookupFive(a, b, c, d, e, key);
  }

  /**
   * What a line-oriented reader sees in an interface block whose fields hold no
   * newline: the `[Interface]` header, exactly one `PrivateKey`, a
   * `ListenPort` line iff the port is non-zero (holding its decimal), an
   * `Address` line iff the address is non-empty and a `DNS` line iff the DNS
   * server is non-empty, in that order.
   */
  lemma InterfaceReadBack(i: Interface)
    requires '\n' !in i.privateKey && '\n' !in i.address && '\n' !in i.dns
    ensures var lines := Split(InterfaceText(i), '\n');
      lines == InterfaceLines(i) &&
      lines[0] == "[Interface]" &&
      Lookup(lines, "PrivateKey") == [i.privateKey] &&
      Lookup(lines, "ListenPort") == (if i.listenPort != 0 then [Decimal(i.listenPort)] else []) &&
      Lookup(lines, "Address") == (if i.address != "" then [i.address] else []) &&
      Lookup(lines, "DNS") == (if i.dns != "" then [i.dns] else [])
  {
    InterfaceLinesProper(i);
    SplitJoin(InterfaceLines(i), '\n');
    InterfaceLookup(i);
  }

  /**
   * The values that the peer lines hold under each of the three keys: one
   * public key; an endpoint iff it is non-empty; always one allowed-IPs value.
   */
  lemma PeerLookup(p: Peer)
    ensures Lookup(PeerLines(p), "PublicKey") == [p.publicKey]
    ensures Lookup(PeerLines(p), "Endpoint") == if p.endpoint != "" then [p.endpoint] else []
    ensures Lookup(PeerLines(p), "AllowedIPs") == [AllowedIpsValue(p)]
  {
    PeerLookupPublicKey(p);
    PeerLookupEndpoint(p);
    PeerLookupAllowedIPs(p);
  }

  /** One lemma per key: the lookup of that key in the peer lines. */
  lemma PeerLookupPublicKey(p: Peer)
    ensures Lookup(PeerLines(p), "PublicKey") == [p.publicKey]
  {
    var key := "PublicKey";
    LookupOpt(true, "PublicKey", p.publicKey, key);
    LookupOpt(p.endpoint != "", "Endpoint", p.endpoint, key);
    LookupOpt(true, "AllowedIPs", AllowedIpsValue(p), key);
    PeerLookupParts(p, key);
    LookupMiss("[Peer]", key, 0);
  }

  lemma PeerLookupEndpoint(p: Peer)
    ensures Lookup(PeerLines(p), "Endpoint") == if p.endpoint != "" then [p.endpoint] else []
  {
    var key := "Endpoint";
    LookupOpt(true, "PublicKey", p.publicKey, key);
    LookupOpt(p.endpoint != "", "Endpoint", p.endpoint, key);
    LookupOpt(true, "AllowedIPs", AllowedIpsValue(p), key);
    PeerLookupParts(p, key);
    LookupMiss("[Peer]", key, 0);
  }

  lemma PeerLookupAllowedIPs(p: Peer)
    ensures Lookup(PeerLines(p), "AllowedIPs") == [AllowedIpsValue(p)]
  {
    var key := "AllowedIPs";
    LookupOpt(true, "PublicKey", p.publicKey, key);
    LookupOpt(p.endpoint != "", "Endpoint", p.endpoint, key);
    LookupOpt(true, "AllowedIPs", AllowedIpsValue(p), key);
    PeerLookupParts(p, key);
    LookupMiss("[Peer]", key, 0);
  }

  /** The lookup of a key in the peer lines is the lookups in the header and the three entries. */
  lemma PeerLookupParts(p: Peer, key: string)
    ensures Lookup(PeerLines(p), key)
      == Lookup(["[Peer]"], key)
      + Lookup(Opt(true, Entry("PublicKey", p.publicKey)), key)
      + Lookup(Opt(p.endpoint != "", Entry("Endpoint", p.endpoint)), key)
      + Lookup(Opt(true, Entry("AllowedIPs", AllowedIpsValue(p))), key)
  {
    var a, b, c, d := ["[Peer]"], Opt(true, Entry("PublicKey", p.publicKey)),
      Opt(p.endpoint != "", Entry("Endpoint", p.endpoint)),
      Opt(true, Entry("AllowedIPs", AllowedIpsValue(p)));
    LookupAppend(a + b + c, d, key);
    LookupAppend(a + b, c, key);
    LookupAppend(a, b, key);
  }

  /** No field of the peer holds a newline. */
  predicate PeerFieldsOneLine(p: Peer)
  {
    '\n' !in p.publicKey && '\n' !in p.endpoint &&
    forall k :: 0 <= k < |p.allowedIps| ==> '\n' !in p.allowedIps[k]
  }

  /**
   * What a line-oriented reader sees in a peer block whose fields hold no
   * newline: the `[Peer]` header, one `PublicKey`, an `Endpoint` line iff the
   * endpoint is non-empty, and always one `AllowedIPs` line.
   */
  lemma PeerReadBack(p: Peer)
    requires PeerFieldsOneLine(p)
    ensures var lines := Split(PeerText(p), '\n');
      lines == PeerLines(p) &&
      lines[0] == "[Peer]" &&
      Lookup(lines, "PublicKey") == [p.publicKey] &&
      Lookup(lines, "Endpoint") == (if p.endpoint != "" then [p.endpoint] else []) &&
      Lookup(lines, "AllowedIPs") == [AllowedIpsValue(p)]
  {
    PeerLinesProper(p);
    SplitJoin(PeerLines(p), '\n');
    PeerLookup(p);
  }

  /**
   * The `AllowedIPs` value: empty for no addresses, the address itself for
   * one, and otherwise a text that starts with the first address, ends with
   * the last, and splits at its commas back into the addresses when none of
   * them holds a comma.
   */
  lemma AllowedIpsValueShape(p: Peer)
    ensures |p.allowedIps| == 0 ==> AllowedIpsValue(p) == ""
    ensures |p.allowedIps| == 1 ==> AllowedIpsValue(p) == p.allowedIps[0]
    ensures |p.allowedIps| > 0 ==>
      var v, ips := AllowedIpsValue(p), p.allowedIps;
      |v| >= |ips[0]| && v[..|ips[0]|] == ips[0] &&
      |v| >= |ips[|ips| - 1]| && v[|v| - |ips[|ips| - 1]|..] == ips[|ips| - 1]
    ensures |p.allowedIps| > 0 && (forall k :: 0 <= k < |p.allowedIps| ==> ',' !in p.allowedIps[k]) ==>
      Split(AllowedIpsValue(p), ',') == p.allowedIps
  {
    if |p.allowedIps| > 0 {
      JoinEnds(p.allowedIps, ",");
      if forall k :: 0 <= k < |p.allowedIps| ==> ',' !in p.allowedIps[k] {
        SplitJoin(p.allowedIps, ',');
      }
    }
  }

  // ----- the whole configuration -----

  /** The rendered text always ends in a newline. */
  lemma ConfigEndsInNewline(c: Config)
    ensures var t := ConfigText(c); |t| > 0 && t[|t| - 1] == '\n'
  {
  }

  /** With no peers the configuration is the interface block and one newline. */
  lemma ConfigWithoutPeers(i: Interface)
    ensures ConfigText(Config(i, [])) == InterfaceText(i) + "\n"
  {
    assert Blocks(Config(i, [])) == [InterfaceText(i)];
    TerminatedSnoc([], InterfaceText(i));
  }

  /** Appending a peer appends its block and one newline and changes nothing before it. */
  lemma ConfigAppendPeer(c: Config, p: Peer)
    ensures ConfigText(c.(peers := c.peers + [p])) == ConfigText(c) + PeerText(p) + "\n"
  {
    assert Blocks(c.(peers := c.peers + [p])) == Blocks(c) + [PeerText(p)];
    TerminatedSnoc(Blocks(c), PeerText(p));
  }

  /** The line groups of a configuration: the interface's, then each peer's in list order. */
  function LineGroups(c: Config): (ls: seq<seq<string>>)
    ensures |ls| == |c.peers| + 1
  {
    [InterfaceLines(c.iface)] + seq(|c.peers|, k requires 0 <= k < |c.peers| => PeerLines(c.peers[k]))
  }

  /** Every line of every block, interface first, then the peers in list order. */
  function ConfigLines(c: Config): seq<string>
  {
    Flatten(LineGroups(c))
  }

  /** The configuration text is its lines, each followed by exactly one newline. */
  lemma ConfigTextAsLines(c: Config)
    ensures |ConfigLines(c)| > 0
    ensures ConfigText(c) == Join(ConfigLines(c) + [""], "\n")
  {
    var bs, ls := Blocks(c), LineGroups(c);
    forall k | 0 <= k < |ls| ensures |ls[k]| > 0 && bs[k] == Join(ls[k], "\n") {
    }
    JoinFlatten(bs, ls, "\n");
    TerminatedAsJoin(bs);
    JoinSnoc(bs, "", "\n");
    JoinSnoc(ConfigLines(c), "", "\n");
  }

  /** No field of the interface or of any peer holds a newline. */
  predicate ConfigFieldsOneLine(c: Config)
  {
    '\n' !in c.iface.privateKey && '\n' !in c.iface.address && '\n' !in c.iface.dns &&
    forall k :: 0 <= k < |c.peers| ==> PeerFieldsOneLine(c.peers[k])
  }

  /**
   * When no field holds a newline, splitting the text at newlines gives the
   * interface's lines, then every peer's lines in list order, then the empty
   * piece after the final newline; no other line is empty, so there is no
   * blank line between blocks.
   */
  lemma ConfigReadBack(c: Config)
    requires ConfigFieldsOneLine(c)
    ensures Split(ConfigText(c), '\n') == ConfigLines(c) + [""]
    ensures ProperLines(ConfigLines(c))
    ensures ConfigLines(c)[..|InterfaceLines(c.iface)|] == InterfaceLines(c.iface)
  {
    var ls := LineGroups(c);
    InterfaceLinesProper(c.iface);
    forall k | 0 <= k < |ls| ensures ProperLines(ls[k]) {
      if k > 0 {
        PeerLinesProper(c.peers[k - 1]);
      }
    }
    FlattenProper(ls);
    ConfigTextAsLines(c);
    SplitJoin(ConfigLines(c) + [""], '\n');
  }
}
