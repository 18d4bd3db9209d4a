# wireguard_on_demand — a Dafny model of its WireGuard core

The Go program provisions a short-lived WireGuard VPN server in the cloud. This
project models the three parts of it that have real logic, and proves what they
promise:

- **Config rendering** (`wireguard/config.go`). The `Config`, `Interface` and
  `Peer` records become datatypes. The three `String` methods become methods
  that build the text by appending, as the Go code does. Each one is proved
  equal to a line-based specification: a block is its lines joined by `"\n"`,
  and a configuration is every block followed by one `"\n"`. Reading the text
  back (`Text.Split` at newlines, then `Text.Lookup` by key) gives exactly the
  fields that the guards let through, in the fixed order, when no field holds
  a newline.
- **Key generation** (`wireguard/keys.go`). Clamping masks the 32-byte array in
  place. `WireGuardKeys.Clamped` specifies it bit by bit. Read as a
  little-endian number, the clamped scalar is a multiple of 8 in
  [2^254, 2^255), as section 5 of RFC 7748 requires. Standard padded base64
  (section 4 of RFC 4648) is specified with its length and padding facts. The
  random read and the X25519 multiplication are parameters.
- **Orchestration** (`main.go`). The argument check is a flag-setting method
  proved against a reference function. The client configuration is built
  from typed deployment outputs. The deploy function generates both key pairs,
  builds the server configuration with its one appended peer and exports the
  values. `main`'s control flow is modelled with the engine's results as
  inputs. End-to-end lemmas give the exact text for every input and for one
  concrete deployment.

Modules: `Wrappers` (Option, Result), `Text` (Go's `strings.Join`, the `%d`
verb, and their inverse readers), `WireGuardConfig`, `WireGuardKeys`,
`Orchestrator`.

The code puts exactly one `"\n"` after each block and nothing else, so it adds
no blank line between blocks (wireguard/config.go:27-32); a field that holds a
newline can still produce one. `WireGuardConfig.ConfigReadBack` proves
that, when no field holds a newline, the only empty piece of the text is the
one after the final newline.

## Model

| member | source | states |
|---|---|---|
| `WireGuardConfig.InterfaceString` | wireguard/config.go:38-58 | the `s +=` construction under the port, address and DNS guards yields exactly the specified interface lines joined by newlines |
| `WireGuardConfig.PeerString` | wireguard/config.go:60-72 | the `s +=` construction under the endpoint guard, with the comma-joined allowed IPs, yields exactly the specified peer lines joined by newlines |
| `WireGuardConfig.ConfigString` | wireguard/config.go:26-36 | the loop over the peers yields the interface block then each peer block in list order, each followed by one newline |
| `WireGuardConfig.InterfaceBeginsWithHead` | wireguard/config.go:39-40 | every interface rendering begins with `"[Interface]\nPrivateKey = "` and the private key |
| `WireGuardConfig.InterfaceListenPortInsertion` | wireguard/config.go:42-45 | a non-zero port inserts exactly `"\nListenPort = <decimal>"` after the head; the rest of the text is the same as with port 0 |
| `WireGuardConfig.InterfaceLookup` | wireguard/config.go:39-55 | the interface lines hold one private key, a ListenPort value iff the port is non-zero, an Address iff it is non-empty, a DNS iff it is non-empty |
| `WireGuardConfig.InterfaceReadBack` | wireguard/config.go:38-58 | when no field holds a newline, splitting the text at newlines gives back the lines in the order header, PrivateKey, ListenPort, Address, DNS, each present exactly under its guard |
| `WireGuardConfig.PeerBeginsWithHead` | wireguard/config.go:61-62 | every peer rendering begins with `"[Peer]\nPublicKey = "` and the public key |
| `WireGuardConfig.PeerLookup` | wireguard/config.go:61-70 | the peer lines hold one public key, an Endpoint iff it is non-empty, and always one AllowedIPs value |
| `WireGuardConfig.PeerReadBack` | wireguard/config.go:60-72 | when no field holds a newline, splitting the text at newlines gives back the header, PublicKey, Endpoint iff non-empty, and always AllowedIPs |
| `WireGuardConfig.AllowedIpsValueShape` | wireguard/config.go:69-70 | the AllowedIPs value is empty for no addresses and the address itself for one; otherwise it starts with the first address and ends with the last, and it splits at commas back into the list |
| `WireGuardConfig.ConfigEndsInNewline` | wireguard/config.go:26-35 | the rendered configuration always ends in `"\n"` |
| `WireGuardConfig.ConfigWithoutPeers` | wireguard/config.go:26-28 | with zero peers the text is the interface block followed by one newline |
| `WireGuardConfig.ConfigAppendPeer` | wireguard/config.go:30-33 | appending a peer appends exactly its block and one newline and leaves everything before it unchanged |
| `WireGuardConfig.ConfigTextAsLines` | wireguard/config.go:26-35 | the configuration text is all block lines in order, each followed by exactly one newline |
| `WireGuardConfig.ConfigReadBack` | wireguard/config.go:26-35 | when no field holds a newline, splitting gives the interface lines, then each peer's lines in list order, then the empty piece after the last newline; no other line is empty |
| `Text.SplitJoin` | wireguard/config.go:70 | splitting a `strings.Join` at a separator that no element holds gives the elements back |
| `Text.JoinEnds` | wireguard/config.go:70 | a join starts with the first element and ends with the last, so it has no leading or trailing separator of its own |
| `Text.Join` | wireguard/config.go:70 | `strings.Join`: the elements with the separator between each two; its contract is stated by `Text.SplitJoin` and `Text.JoinEnds` |
| `Text.Decimal` | wireguard/config.go:43-44 | the `%d` verb; its contract is stated by `Text.DecimalChars` and `Text.DecimalRoundTrip` |
| `Text.DecimalChars` | wireguard/config.go:43-44 | `%d` output is non-empty, holds only digits after an optional leading minus, and has the minus exactly for negative numbers |
| `Text.DecimalRoundTrip` | wireguard/config.go:43-44 | parsing the `%d` text of any integer gives that integer back |
| `WireGuardKeys.Clamped` | wireguard/keys.go:18-21 | after clamping, the low three bits of byte 0 are 0, bit 7 of byte 31 is 0 and bit 6 is 1; bytes 1..30, bits 3..7 of byte 0 and bits 0..5 of byte 31 keep their values |
| `WireGuardKeys.ClampedUnique` | wireguard/keys.go:19-21 | those bit facts determine the clamped key completely |
| `WireGuardKeys.ClampedIdempotent` | wireguard/keys.go:19-21 | clamping a clamped key gives the same bytes |
| `WireGuardKeys.Clamp` | wireguard/keys.go:19-21 | the three in-place statements turn the array into the clamped key |
| `WireGuardKeys.ClampedScalarRange` | wireguard/keys.go:18-21 | the clamped key, read little-endian as in section 5 of RFC 7748, is a multiple of 8 between 2^254 inclusive and 2^255 exclusive |
| `WireGuardKeys.Base64Char` | wireguard/keys.go:28-29 | each 6-bit value maps to a character of the standard alphabet, never to the pad `=` |
| `WireGuardKeys.QuantumBits` | wireguard/keys.go:28-29 | the 24 bits of three input bytes are the four 6-bit values of their quantum, most significant first, as section 4 of RFC 4648 lays them out |
| `WireGuardKeys.ShortQuantumBits` | wireguard/keys.go:28-29 | a short final group of one or two bytes is read with zero bits in place of the missing bytes |
| `WireGuardKeys.Base64Encode` | wireguard/keys.go:28-29 | the encoding of n bytes has 4 * ceil(n / 3) characters |
| `WireGuardKeys.SymsPadding` | wireguard/keys.go:28-29 | in the 6-bit places of the encoding, the pads are exactly the last (3 - n mod 3) mod 3 places |
| `WireGuardKeys.Base64Padding` | wireguard/keys.go:28-29 | exactly the last (3 - n mod 3) mod 3 characters are `=` |
| `WireGuardKeys.Base64OfKey` | wireguard/keys.go:28-29 | a 32-byte key encodes to 44 characters ending in exactly one `=` |
| `WireGuardKeys.GenerateKeyPair` | wireguard/keys.go:11-32 | a failed random read returns two empty keys and its error; a failed X25519 returns two empty keys and that error; otherwise the keys are the base64 of the clamped bytes and of X25519 of those same bytes, 44 characters each |
| `Orchestrator.ParseArgs` | main.go:37-53 | an argument count other than 1 is a usage error; `destroy` and `update` set their own flag and anything else is a usage error; never both flags; agrees with the reference `SelectIntent` |
| `Orchestrator.HostPort` | main.go:111 | `fmt.Sprintf("%s:%d", …)`: the endpoint, a colon and the port in decimal; its text is stated by `Orchestrator.ClientConfigText` and `Orchestrator.TunnelEnds` |
| `Orchestrator.ClientConfig` | main.go:102-115 | the `clientConfig` literal built from the outputs; its rendered text is stated by `Orchestrator.ClientConfigText` |
| `Orchestrator.ServerConfig` | main.go:229-245 | the server configuration after the peer append; its rendered text is stated by `Orchestrator.ServerConfigText` |
| `Orchestrator.ClientConfigText` | main.go:102-115 | for all outputs the client text is PrivateKey, Address only if non-empty, DNS 1.1.1.1 and no ListenPort, then one peer with the server key, `endpoint:port` and AllowedIPs 0.0.0.0/0 |
| `Orchestrator.ClientConfigExample` | main.go:102-117 | the exact client text for endpoint 1.2.3.4, port 51820, keys SPUB and CPRIV, address 10.0.0.2/24 |
| `Orchestrator.ServerConfigText` | main.go:227-245 | the server text is PrivateKey and ListenPort 51820 with no Address or DNS, then one peer with the client key, no Endpoint and AllowedIPs 10.0.0.2/24 |
| `Orchestrator.HostDeploy` | main.go:223-270 | either key generation failing returns its error; the result is a success exactly when both succeed, and then the server configuration has the server key, port 51820 and the client as its one peer, its rendered text is returned, and the exports carry the instance address, the same port, the server's public key, both client keys and the client address |
| `Orchestrator.TunnelEnds` | main.go:242-270 | the server lists the client's public key as its peer; the client lists the server's public key at `<endpoint>:51820`, and its address is the server peer's allowed IP |
| `Orchestrator.Run` | main.go:34-121 | a usage error ends the run before anything else; setup errors abort; destroy only tears down; only a successful update outputs the client configuration, and what it outputs is the rendered client configuration |

## Left out

- Pulumi lifecycle (main.go:81-84, 86-97, 123-157). Stack upsert, plugin installation, `SetConfig`, `Refresh`, `Up` and `Destroy` are calls into an external engine. `Orchestrator.Run` takes their results as parameters. `setup` is the first error of `godotenv.Load` and `startStack`. The error that `SetConfig` returns is ignored by the code and is not modelled.
- AWS resources (main.go:161-215, 250-263). The security group, AMI lookup and instance creation are declarative cloud SDK calls. The instance's public IP is the `publicIp` parameter of `Orchestrator.HostDeploy`.
- Orchestrator.HostDeploy: does not model reading `user_data.sh`, its `fmt.Sprintf` substitution or the `fmt.Print` of the result (main.go:217-221, 247-248). It returns the rendered server configuration that would be substituted. The failure paths of the security group, AMI lookup, file read and instance creation are not modelled either.
- Process control and logging. `os.Exit`, `panic`, progress streaming to stdout and the `slog` logger are not modelled; the `Exit` datatype stands for how a run ends.
- Randomness and curve arithmetic (wireguard/keys.go:13, 23). The random read is a `Result<Key, string>` and X25519 with the base point is a function parameter. The field arithmetic is not modelled.
- The statistical claim that generated keys never repeat is about randomness and is not modelled.
- Base64 decoding is not modelled: only the encoding, its alphabet, length and padding are.
- The `float64` to `int` conversion of the port (main.go:111) is not modelled. The port is an `int` input.
- The untyped output map and its type assertions (main.go:104-111) are not modelled. The outputs are a typed record, so a missing or mistyped output (a Go panic) is not modelled.
- Go `int` is 64 bits wide. Ports and `ListenPort` are unbounded integers in the model. No arithmetic is done on them, so wrap-around cannot occur; `%d` formatting is modelled for every integer.
- The iteration order of the stack config map (main.go:144-146) is not modelled. It has one entry.
