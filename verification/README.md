# cinit: credential environment and argument check, in Dafny

cinit is a small process supervisor meant to run as the first process of a
container. It starts one command, relays its terminal or pipes, forwards
signals to it and reaps orphans. This project models the deterministic part
that runs before any process exists:

- `envKey` turns a credential key from the Docker secrets store into an
  environment-variable name. It trims white space, turns every space and every
  hyphen into `_`, and upper-cases the result.
- `mapToEnvList` turns the credential map into one `NAME=value` assignment per
  credential. The order follows Go's map iteration, which is not fixed.
- The start of `main`. With a program name and no command it prints usage and
  exits with status 1. With no argument-vector entries at all, the usage
  branch faults on `os.Args[0]` (see Findings). Otherwise it runs `args[1]`
  with `args[2:]`, and `cmd.Env` is set from the credentials when the store
  could be read.

Modules, leaf first:

- `Runes` (runes.dfy) holds the character classes. `IsSpace` is Go's
  `unicode.IsSpace`. `UpperChar` is the ASCII upper-case mapping. `NormChar` is
  what one character of a trimmed key becomes.
- `GoStrings` (gostrings.dfy) holds `strings.TrimSpace`, `strings.ReplaceAll`
  with one-character arguments, and `strings.ToUpper`. Each works on strings
  of code points.
- `EnvKeys` (envkey.dfy) holds `envKey`.
- `Bags` (bags.dfy) reads a map as a bag of its values. It also states what
  visiting a map's keys in some order produces.
- `EnvList` (envlist.dfy) holds `mapToEnvList`. The iteration order is a
  parameter `order` listing every key exactly once, and every result holds for
  every such order.
- `Launch` (launch.dfy) holds the argument check, the child's environment, and
  the start-up decision.

The child's environment follows the code. When the secrets store cannot be
read, `cmd.Env` stays nil. When it holds no credentials, `mapToEnvList` returns
a nil list. In both cases `os/exec` gives the child the supervisor's own
environment. Otherwise the credential assignments replace that environment
entirely (`ChildEnv`).

## Model

| member | source | states |
|---|---|---|
| Runes.IsSpace | main.go:21 | Go's `unicode.IsSpace`: TAB through CR, SPACE, NEL, NBSP and the other code points with the Unicode White_Space property (U+1680, U+2000 through U+200A, U+2028, U+2029, U+202F, U+205F, U+3000). This is exactly the set `TrimSpace` cuts. |
| Runes.UpperChar | main.go:24 | Upper-casing one character never yields a lower-case letter. It maps each ASCII lower-case letter to its capital and leaves every other character as it is. |
| Runes.NormChar | main.go:21-24 | A character of a trimmed key becomes `_` if it is a space or a hyphen, otherwise its upper-case form. The result is never a space, a hyphen or a lower-case letter. |
| Runes.NormCharKeepsNonSpace | main.go:22-24 | Replacing and upper-casing never turn a non-white-space character into white space. |
| Runes.NormCharIdempotent | main.go:22-24 | A character already in normal form is unchanged by normalising it again. |
| GoStrings.TrimLeft | main.go:21 | Drops exactly the leading white space. The result is a suffix of the input, everything cut is white space, and the result does not start with white space. |
| GoStrings.TrimRight | main.go:21 | Drops exactly the trailing white space. The result is a prefix of the input, everything cut is white space, and the result does not end with white space. |
| GoStrings.TrimSpace | main.go:21 | `strings.TrimSpace`. The result is a contiguous middle part of the key with only white space cut on either side, it is no longer than the key, and neither of its ends is white space. |
| GoStrings.TrimSpaceUnique | main.go:21 | Any middle part of the key that has only white space cut on either side and no white space at its ends equals `TrimSpace` of the key. So the contract characterises the trim completely. |
| GoStrings.TrimSpaceOfTrimmed | main.go:21 | A string with no white space at either end is returned unchanged. |
| GoStrings.TrimSpaceIdempotent | main.go:21 | Trimming twice is the same as trimming once. |
| GoStrings.ReplaceAll | main.go:22-23 | Replacing one character by another keeps the length. Each occurrence of the old character becomes the new one, and every other position is unchanged. |
| GoStrings.ReplaceAllRemoves | main.go:22-23 | After replacing a character by a different one, it no longer occurs. |
| GoStrings.ToUpper | main.go:24 | Upper-casing keeps the length and maps each position through `UpperChar`. |
| GoStrings.ToUpperHasNoLower | main.go:24 | No lower-case letter is left after upper-casing. |
| EnvKeys.Normalise | main.go:22-24 | The two replacements followed by upper-casing act position by position as `NormChar`. The result has no space, no hyphen and no lower-case letter. |
| EnvKeys.EnvKey | main.go:20-25 | The derived name is no longer than the key and contains no space, no hyphen and no lower-case letter. |
| EnvKeys.EnvKeyPointwise | main.go:20-25 | Nothing else changes. The name has the trimmed key's length, and each position holds `NormChar` of the same position of the trimmed key. |
| EnvKeys.EnvKeyEmpty | main.go:20-25 | The name is empty exactly when the key consists only of white space. |
| EnvKeys.NormaliseIdempotent | main.go:22-24 | Replacing and upper-casing a second time changes nothing. |
| EnvKeys.NormaliseKeepsTrimmed | main.go:21-24 | A trimmed key is still trimmed after replacing and upper-casing. |
| EnvKeys.EnvKeyIdempotent | main.go:20-25 | `envKey(envKey(s)) == envKey(s)` for every key. |
| EnvKeys.EnvKeyExamples | main.go:20-25 | `" api key "` gives `API_KEY` and `"db-pass"` gives `DB_PASS`. Both `"a-b"` and `"a b"` give `A_B`. |
| EnvKeys.EnvKeyKeepsInteriorTab | main.go:21-22 | Only plain spaces are replaced. A tab inside a key survives into the name. |
| Bags.MapInOrder | main.go:29-31 | Visiting the keys of a map in an order that lists each key once gives one result per key, in visiting order. Taken as a bag, the results are the map's rewritten values for every order. |
| EnvList.Assignment | main.go:30 | `NAME=value` is the name, one `=` and the value, with nothing added or dropped. |
| EnvList.EnvLine | main.go:30 | The assignment for one credential: `envKey` of the key, one `=`, and the value unchanged. |
| EnvList.MapToEnvList | main.go:27-33 | One assignment per credential. Entry `i` is `envKey(k) + "=" + v` for the `i`-th key visited. As a multiset, the list equals the bag of all credentials' assignments. |
| EnvList.MapToEnvListCovers | main.go:29-30 | Every entry is the assignment of some credential, with its value unchanged. Every credential yields its assignment in the list. |
| EnvList.OrderIrrelevant | main.go:29 | Two iteration orders of the same map give lists that are equal as multisets. |
| EnvList.NoDeduplication | main.go:28-31 | Two different keys with the same derived name and value produce the same assignment twice. It appears at least twice in the list. |
| EnvList.CollidingKeysExample | main.go:28-31 | The map `{"a-b": "1", "a b": "2"}` gives two entries, `A_B=1` and `A_B=2`, in either order. |
| Launch.ParseArgsAsWritten | main.go:36-41 | The check as written. It faults with no argument-vector entries, prints usage for `args[0]` with one entry, and otherwise splits off `args[1]` and `args[2:]`. |
| Launch.ParseArgs | main.go:36-41 | The corrected check. It prints usage exactly when there are fewer than two entries and never faults. Otherwise the program name, the command and its arguments put back together are the argument vector. |
| Launch.ParseArgsRoundTrip | main.go:41 | Any argument vector with a command parses back into that command and exactly those arguments. |
| Launch.ParseArgsAgrees | main.go:36-41 | The corrected and the written check agree on every non-empty argument vector. |
| Launch.EmptyArgvPanics | main.go:36-37 | On the empty argument vector the written check faults, but the corrected one prints usage. |
| Launch.ChildEnv | main.go:43-48 | The child inherits the supervisor's environment exactly when the store could not be read or holds no credentials. Otherwise its environment is replaced by the credential list: one assignment per credential, equal as a multiset to the credentials' assignments. |
| Launch.Start | main.go:36-48 | Start-up as written. The empty argument vector faults, and a program name alone exits with status 1 and starts no child. Otherwise it spawns `args[1]` with `args[2:]`. The environment is inherited exactly when the store could not be read or is empty; otherwise it is the credential list, one assignment per credential and equal as a multiset to the credentials' assignments. |
| Launch.StartCorrected | main.go:36-48 | Start-up with the corrected check. It exits with status 1 exactly when there are fewer than two entries and never faults; spawning and the environment are as for `Start`. |
| Launch.StartAgrees | main.go:36-48 | The written and the corrected start-up agree on every non-empty argument vector. On the empty one the written start-up faults and the corrected one exits with status 1. |

## Left out

- The pseudo-terminal path (main.go:50-81) is not modelled. It covers allocating the pty, propagating window sizes, raw mode and the two byte relays. All of it is terminal I/O and concurrency.
- The pipe path (main.go:83-118) is not modelled. It covers `Setpgid`, the three pipes, `cmd.Start`, `Getpgid`, the relay goroutines and killing the child at the end of input. This is process and I/O plumbing.
- Signal forwarding and reaping (main.go:120-133) are not modelled. `signal.Notify`, the kill to the process group and `Wait4` exist to handle OS signals and concurrent processes.
- The terminal check `isatty.IsTerminal` (main.go:50) is a foreign predicate. It decides only which of the two left-out paths runs.
- The Docker secrets lookup (main.go:43) is a foreign library call. Its result is the input `Secrets`: either `LoadFailed` or `Loaded` with the credential map. The warning logged on failure is left out.
- Go's map iteration order is not fixed. It is the parameter `order`, constrained only to list every key once.
- The usage line (main.go:37) writes to standard error and passes the program name through `filepath.Base`. The model keeps only the raw program name it is printed for.
- `os/exec` drops duplicate names when it starts the child. Only the last assignment of each name is kept. That happens after `mapToEnvList` and is not modelled.
- Names are not checked for `=`. A key such as `a=b` yields a name containing `=`, and the model does not say how the child reads such an assignment.
- GoStrings.ToUpper: maps only ASCII letters. Go's `strings.ToUpper` also maps non-ASCII letters under Unicode case rules. For keys outside ASCII the model keeps those letters unchanged where Go would change them.
- EnvKeys.EnvKey: works on strings of code points. It does not model Go's byte strings or invalid UTF-8, which `strings.TrimSpace` and `strings.ToUpper` handle rune by rune.

## Findings

| source | as written | input that shows it | evidently intended | confidence | as-written member | corrected member |
|---|---|---|---|---|---|---|
| main.go:36-37 | `len(os.Args) < 2` also admits an empty argument vector, and the usage branch then reads `os.Args[0]`, which is out of range | an empty argument vector, `[]` (an `execve` with an empty argv, on systems that pass it through) | print the usage line and exit with status 1, as for a vector with no command | low; not executed. Linux 5.18 and later substitute an empty `argv[0]`, which avoids the fault there | Launch.ParseArgsAsWritten | Launch.ParseArgs |
