# hello: visit-counter service and configuration, modelled in Dafny

This project models the hand-written core of the `hello` gRPC service:

- **The greeting service** (`hello_service.go`, module `Hello` in
  `hello_service.dfy`). The service owns a counter store, a map from name to
  visit count (Go `uint64`). `SayHi` defaults an empty name to `"strange"`
  and writes that back into the request. It then counts one more visit for the
  name and returns `"Hello, <name>!"`. `Health` always fails with
  `Unimplemented`. `Counts` lists every (name, count) pair, or fails with
  `NotFound` when nothing has been counted. `DeleteCounts` swaps in a fresh,
  empty counter store. `counter`, `service` and the request message are
  classes. Each RPC is a method whose `ensures` give the result and the new
  store. `Counts` builds its response with a loop over the map's keys. It is
  proved to list the map exactly: one entry per key, each with its stored
  count, order unspecified (any two listings are permutations of each other).
  Three client methods replay the Go unit tests against the contracts.
- **Configuration loading** (`config/config.go`, module `Config` in
  `config.dfy`). `Read` turns the environment into the port (default
  `"9999"`), the primary domain (default `"localhost:" + port`), the TLS key
  and the TLS certificate. An empty key or certificate is fatal, and the key
  is checked first. The environment is a `map<string, string>` in which an
  absent variable reads as `""`. The fatal log call is the result
  `Fatal(message)`. The package-level variables become the returned
  `Configuration` record.
- **gRPC results** (module `Status` in `status.dfy`): `Ok(value)` or
  `Err(code, message)`, which stands for a nil response plus a
  `grpc.Errorf(code, message)` error.

The default name is `"strange"`. The NotFound message is `"there is no
visits recorded at this moment"`.

Counts are a `uint64` newtype. `m[name]++` wraps to 0 after
2^64 - 1, as Go does. `SayHi` states the wrapped value and also that, below
the maximum, the count rises by exactly one.

## Model

| member | source | states |
|---|---|---|
| `Config.Getenv` | config/config.go:22-42 | an unset environment variable reads as the empty string, a set one as its value |
| `Config.Read` | config/config.go:21-46 | empty TLS_KEY is fatal with its message, whatever TLS_CERT is; with a key, empty TLS_CERT is fatal with its message; the result is loaded exactly when both are non-empty; the loaded port is PORT or "9999" when empty, so never empty; the primary domain is PRIMARY_DOMAIN or "localhost:" + the defaulted port; key and certificate are stored verbatim |
| `Config.ReadIsStable` | config/config.go:22-31 | defaulting is idempotent: re-reading an environment that holds a loaded configuration loads the same configuration |
| `Config.KeyCheckedBeforeCert` | config/config.go:35-45 | with an empty TLS_KEY, any TLS_CERT value gives the same key-missing fatal error |
| `Hello.EffectiveName` | hello_service.go:25-27 | the effective name is never empty; it equals the request's name exactly when that name is non-empty, and is "strange" otherwise |
| `Hello.CountOf` | hello_service.go:35 | an absent name has count 0 (the Go map zero value); a present one its stored count |
| `Hello.Counter.constructor` | hello_service.go:70-72 | a new counter store holds the empty map |
| `Hello.Service.constructor` | hello_service.go:80-86 | the registered service owns a fresh counter store with the empty map |
| `Hello.Service.SayHi` | hello_service.go:24-40 | the request's name becomes the effective name; the store object is kept; the key set gains that name; its count becomes (old count + 1) mod 2^64, which is old count + 1 below the maximum (so 1 for an absent name); every other count is unchanged; the result is always Ok("Hello, " + effective name + "!") |
| `Hello.Service.Health` | hello_service.go:42-44 | always Err(Unimplemented, "nothing to see here"); the store is not modified |
| `Hello.Service.Counts` | hello_service.go:46-62 | fails exactly when the map is empty, then with Err(NotFound, "there is no visits recorded at this moment"); otherwise the entries list the map: distinct names, as many entries as keys, each entry's count is the stored count, every key has its entry; the store is not modified |
| `Hello.Service.DeleteCounts` | hello_service.go:64-75 | never fails; afterwards the service holds a freshly allocated counter store whose map is empty, whatever it held before |
| `Hello.ToMapKeys` | hello_service.go:55-60 | the names in an entry sequence are exactly the keys of the map it describes |
| `Hello.ToMapAt` | hello_service.go:55-60 | with distinct names, each entry's count is what the described map holds for its name |
| `Hello.ToMapSize` | hello_service.go:55-60 | with distinct names, the described map has one key per entry |
| `Hello.DistinctMultiplicity` | hello_service.go:55-60 | a sequence with distinct names contains each of its elements exactly once |
| `Hello.ListsFacts` | hello_service.go:54-61 | a listing of a map has as many entries as keys, each entry carries its key's stored count, and every key has its entry |
| `Hello.ListingsArePermutations` | hello_service.go:55 | map iteration order is the only freedom: any two listings of the same map are permutations of each other |
| `Hello.DeleteThenCounts` | hello_service_test.go:100-113 | after DeleteCounts, Counts fails with NotFound, whatever the store held |
| `Hello.SayHiSequence` | hello_service_test.go:13-56 | on a fresh service, greeting "", "camilo", "camilo" gives "Hello, strange!", "Hello, camilo!", "Hello, camilo!"; the stored counts read back through the rewritten request names are 1, 1, 2; Counts then lists exactly {strange: 1, camilo: 2} |
| `Hello.TwoKeyListing` | hello_service.go:54-61 | any Counts listing of a store with two distinct names has two entries, and they are exactly those two (name, count) pairs in some order |
| `Hello.CountsSequence` | hello_service_test.go:58-97 | Counts on an empty store fails with NotFound; on the store {alice: 3, camilo: 2} it returns two entries, each one of the stored pairs, and as a multiset exactly those two |

## Left out

- The `sync.RWMutex` in `counter` and every lock and unlock: each RPC is modelled as one atomic step. The no-lost-update and atomic-reset guarantees are about concurrency.
- `Hello.Service.DeleteCounts`: swapping the `counter` pointer while holding the old store's lock affects concurrent holders of the old pointer. That is a concurrency question and is not modelled.
- The `context.Context` and `empty.Empty` parameters of the RPCs: they are unused by the handlers.
- `RegisterService` beyond building the service with its empty store (`Hello.Service.constructor`). The gRPC server and gateway registration call generated code that is not part of this model.
- `vendor/github.com/c4milo/handlers/grpcutil/hola.pb.gw.go`: generated HTTP gateway code (mux registration, dialling, goroutines, marshalling).
- `cmd/hello/hello.go`: server wiring (TLS key-pair parsing, two listeners, the middleware chain, the `/health` redirect, signal handling and the 5-second graceful shutdown).
- In `config/config.go`, the `os.Getenv` reads become the `Environment` parameter. The `glog` logging and the process exit become the `Fatal` result. Before a fatal exit the Go code has already assigned some package variables. The process ends there, so the model does not keep that partial state.
