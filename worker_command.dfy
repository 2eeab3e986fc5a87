// Worker command lines: how the pool assembles the argument vector of a new
// worker process, and how the test fixture reads the runtime env hash back out
// of it (`--runtime-env-hash=<h>`, parsed with std::stoi).
module WorkerCommand {
  import opened Wrappers

  const DYNAMIC_OPTION_PLACEHOLDER: string := "RAY_WORKER_DYNAMIC_OPTION_PLACEHOLDER"
  const RUNTIME_ENV_HASH_KEY: string := "--runtime-env-hash="
  const NODE_ID_KEY: string := "--node-id="
  const STARTUP_TOKEN_KEY: string := "--startup-token="
  const JAVA_CODE_SEARCH_PATH_KEY: string := "-Dray.job.code-search-path="
  const JAVA_STARTUP_TOKEN_KEY: string := "-Dray.raylet.startup-token="
  const JAVA_ENV_HASH_KEY: string := "-Dray.internal.runtime-env-hash="
  const JAVA_LANGUAGE_FLAG: string := "--language=JAVA"

  // ---------------------------------------------------------------------------
  // Decimal text

  predicate IsDigit(c: char) { '0' <= c <= '9' }

  function DigitChar(d: nat): (c: char)
    requires d < 10
    ensures IsDigit(c) && c as int - '0' as int == d
  {
    (d + '0' as int) as char
  }

  function DigitValue(c: char): nat
    requires IsDigit(c)
  {
    c as int - '0' as int
  }

  /// Decimal digits of n, most significant first, without leading zeros.
  function NatToString(n: nat): (s: string)
    ensures |s| >= 1
    ensures forall i :: 0 <= i < |s| ==> IsDigit(s[i])
    decreases n
  {
    if n < 10 then [DigitChar(n)] else NatToString(n / 10) + [DigitChar(n % 10)]
  }

  /// std::to_string of an int.
  function IntToString(i: int): string
  {
    if i < 0 then "-" + NatToString(-i) else NatToString(i)
  }

  /// Value of a string made only of digits.
  function DigitsValue(s: string): nat
    requires forall i :: 0 <= i < |s| ==> IsDigit(s[i])
    decreases |s|
  {
    if s == [] then 0 else DigitsValue(s[..|s| - 1]) * 10 + DigitValue(s[|s| - 1])
  }

  /// Length of the run of digits at the front of s.
  function DigitRun(s: string): (k: nat)
    ensures k <= |s|
    ensures forall i :: 0 <= i < k ==> IsDigit(s[i])
    ensures k < |s| ==> !IsDigit(s[k])
    decreases |s|
  {
    if s != [] && IsDigit(s[0]) then 1 + DigitRun(s[1..]) else 0
  }

  /// The longest run of digits at the front of s, read as a number; None when
  /// there is none.
  function LeadingNumber(s: string): Option<nat>
  {
    var k := DigitRun(s);
    if k == 0 then None else Some(DigitsValue(s[..k]))
  }

  /// std::stoi without leading white space or '+': an optional '-', then the longest
  /// run of digits. None stands for the exception stoi throws when there is no digit.
  function Stoi(s: string): Option<int>
  {
    if |s| > 0 && s[0] == '-' then
      match LeadingNumber(s[1..])
      case Some(v) => Some(-(v as int))
      case None => None
    else
      match LeadingNumber(s)
      case Some(v) => Some(v as int)
      case None => None
  }

  lemma {:induction false} DigitsValueOfNat(n: nat)
    ensures DigitsValue(NatToString(n)) == n
    decreases n
  {
    var s := NatToString(n);
    if n >= 10 {
      DigitsValueOfNat(n / 10);
      assert s[..|s| - 1] == NatToString(n / 10);
    }
  }

  lemma {:induction false} DigitRunAll(s: string)
    requires forall i :: 0 <= i < |s| ==> IsDigit(s[i])
    ensures DigitRun(s) == |s|
    decreases |s|
  {
    if s != [] {
      DigitRunAll(s[1..]);
    }
  }

  /// A non-empty run of digits is read whole.
  lemma LeadingNumberDigits(d: string)
    requires |d| >= 1 && forall i :: 0 <= i < |d| ==> IsDigit(d[i])
    ensures LeadingNumber(d) == Some(DigitsValue(d))
  {
    DigitRunAll(d);
    assert d[..|d|] == d;
  }

  /// Stoi of a non-empty run of digits is its value.
  lemma StoiDigits(d: string)
    requires |d| >= 1 && forall i :: 0 <= i < |d| ==> IsDigit(d[i])
    ensures Stoi(d) == Some(DigitsValue(d) as int)
  {
    LeadingNumberDigits(d);
    assert d[0] != '-' by { assert IsDigit(d[0]); }
  }

  /// Stoi of a '-' and a non-empty run of digits is minus their value.
  lemma StoiNegativeDigits(d: string)
    requires |d| >= 1 && forall i :: 0 <= i < |d| ==> IsDigit(d[i])
    ensures Stoi("-" + d) == Some(-(DigitsValue(d) as int))
  {
    var s := "-" + d;
    assert s[0] == '-' && s[1..] == d;
    LeadingNumberDigits(d);
  }

  lemma NatRoundTrip(n: nat)
    ensures Stoi(NatToString(n)) == Some(n as int)
  {
    DigitsValueOfNat(n);
    StoiDigits(NatToString(n));
  }

  lemma NegativeRoundTrip(n: nat)
    ensures Stoi("-" + NatToString(n)) == Some(-(n as int))
  {
    DigitsValueOfNat(n);
    StoiNegativeDigits(NatToString(n));
  }

  /// stoi reads back what to_string wrote.
  lemma IntToStringRoundTrip(i: int)
    ensures Stoi(IntToString(i)) == Some(i)
  {
    if i < 0 {
      NegativeRoundTrip(-i);
    } else {
      NatRoundTrip(i);
    }
  }

  // ---------------------------------------------------------------------------
  // Substring search (std::string::find)

  predicate OccursAt(s: string, key: string, q: nat)
  {
    q + |key| <= |s| && s[q..q + |key|] == key
  }

  /// First position at or after `from` where `key` occurs in s.
  function FindFrom(s: string, key: string, from: nat): (p: Option<nat>)
    requires from <= |s|
    ensures p.Some? ==> from <= p.value && OccursAt(s, key, p.value)
    ensures p.Some? ==> forall q :: from <= q < p.value ==> !OccursAt(s, key, q)
    ensures p.None? ==> forall q :: from <= q ==> !OccursAt(s, key, q)
    decreases |s| - from
  {
    if from + |key| > |s| then None
    else if s[from..from + |key|] == key then Some(from)
    else FindFrom(s, key, from + 1)
  }

  function Find(s: string, key: string): Option<nat>
  {
    FindFrom(s, key, 0)
  }

  /// A string without the letter 'h' cannot contain the runtime env hash key.
  lemma NoHashKeyWithoutH(s: string)
    requires 'h' !in s
    ensures Find(s, RUNTIME_ENV_HASH_KEY).None?
  {
    var key := RUNTIME_ENV_HASH_KEY;
    forall q: nat | q + |key| <= |s|
      ensures !OccursAt(s, key, q)
    {
      assert s[q + 14] in s;
      assert s[q..q + |key|][14] == s[q + 14];
      assert key[14] == 'h';
    }
  }

  // ---------------------------------------------------------------------------
  // Reading the hash back, as the fixture's PushWorkers does

  /// One step of the fixture's scan: an argument containing the key overwrites the
  /// hash with stoi of what follows the key; stoi throwing ends the scan (None).
  function ScanStep(acc: Option<int>, arg: string): Option<int>
  {
    if acc.None? then None
    else match Find(arg, RUNTIME_ENV_HASH_KEY)
      case Some(p) => Stoi(arg[p + |RUNTIME_ENV_HASH_KEY|..])
      case None => acc
  }

  /// The hash the fixture parses out of a command: 0 when no argument carries the key.
  function ScanEnvHash(args: seq<string>): Option<int>
    decreases |args|
  {
    if args == [] then Some(0)
    else ScanStep(ScanEnvHash(args[..|args| - 1]), args[|args| - 1])
  }

  lemma {:induction false} ScanWithoutKey(args: seq<string>)
    requires forall i :: 0 <= i < |args| ==> 'h' !in args[i]
    ensures ScanEnvHash(args) == Some(0)
    decreases |args|
  {
    if args != [] {
      ScanWithoutKey(args[..|args| - 1]);
      NoHashKeyWithoutH(args[|args| - 1]);
    }
  }

  lemma HashArgParses(h: int)
    ensures ScanStep(Some(0), RUNTIME_ENV_HASH_KEY + IntToString(h)) == Some(h)
  {
    var arg := RUNTIME_ENV_HASH_KEY + IntToString(h);
    assert arg[0..|RUNTIME_ENV_HASH_KEY|] == RUNTIME_ENV_HASH_KEY;
    assert Find(arg, RUNTIME_ENV_HASH_KEY) == Some(0);
    assert arg[|RUNTIME_ENV_HASH_KEY|..] == IntToString(h);
    IntToStringRoundTrip(h);
  }

  // ---------------------------------------------------------------------------
  // Building commands

  /// Every occurrence of the dynamic option placeholder replaced by `block`.
  function ExpandPlaceholder(base: seq<string>, block: seq<string>): seq<string>
    decreases |base|
  {
    if base == [] then []
    else (if base[0] == DYNAMIC_OPTION_PLACEHOLDER then block else [base[0]])
         + ExpandPlaceholder(base[1..], block)
  }

  function Join(parts: seq<string>, sep: string): string
    decreases |parts|
  {
    if parts == [] then ""
    else if |parts| == 1 then parts[0]
    else parts[0] + sep + Join(parts[1..], sep)
  }

  /// Ray-defined per-job Java options.
  function JavaJobOptions(codeSearchPath: seq<string>): seq<string>
  {
    if codeSearchPath == [] then [] else [JAVA_CODE_SEARCH_PATH_KEY + Join(codeSearchPath, ":")]
  }

  /// Ray-defined per-process Java options.
  function JavaProcessOptions(token: nat, envHash: int): seq<string>
  {
    [JAVA_STARTUP_TOKEN_KEY + NatToString(token), JAVA_ENV_HASH_KEY + IntToString(envHash)]
  }

  /// The Java worker command: the placeholder of the configured command is replaced by
  /// Ray's per-job options, the user's job JVM options, Ray's per-process options and
  /// the actor's dynamic options, in that order; the language flag goes last.
  function JavaCommand(base: seq<string>, codeSearchPath: seq<string>, jvmOptions: seq<string>,
                       token: nat, envHash: int, dynamicOptions: seq<string>): seq<string>
  {
    ExpandPlaceholder(base, JavaJobOptions(codeSearchPath) + jvmOptions
                            + JavaProcessOptions(token, envHash) + dynamicOptions)
      + [JAVA_LANGUAGE_FLAG]
  }

  /// The Python worker command: the configured command, then the startup token, the
  /// node id and the runtime env hash.
  function PythonCommand(base: seq<string>, token: nat, nodeId: string, envHash: int): seq<string>
  {
    base + [STARTUP_TOKEN_KEY + NatToString(token), NODE_ID_KEY + nodeId,
            RUNTIME_ENV_HASH_KEY + IntToString(envHash)]
  }

  lemma {:induction false} ExpandAppend(a: seq<string>, b: seq<string>, block: seq<string>)
    ensures ExpandPlaceholder(a + b, block) == ExpandPlaceholder(a, block) + ExpandPlaceholder(b, block)
    decreases |a|
  {
    if a != [] {
      ExpandAppend(a[1..], b, block);
      assert (a + b)[1..] == a[1..] + b;
    } else {
      assert a + b == b;
    }
  }

  lemma {:induction false} ExpandWithoutPlaceholder(a: seq<string>, block: seq<string>)
    requires DYNAMIC_OPTION_PLACEHOLDER !in a
    ensures ExpandPlaceholder(a, block) == a
    decreases |a|
  {
    if a != [] {
      assert a[0] in a;
      ExpandWithoutPlaceholder(a[1..], block);
    }
  }

  /// Expanding a command with exactly one placeholder puts the block in its place.
  lemma ExpandOne(head: seq<string>, tail: seq<string>, block: seq<string>)
    requires DYNAMIC_OPTION_PLACEHOLDER !in head && DYNAMIC_OPTION_PLACEHOLDER !in tail
    ensures ExpandPlaceholder(head + [DYNAMIC_OPTION_PLACEHOLDER] + tail, block)
         == head + block + tail
  {
    var one := [DYNAMIC_OPTION_PLACEHOLDER];
    assert ExpandPlaceholder(one, block) == block by {
      assert one[1..] == [];
      assert ExpandPlaceholder(one, block) == block + ExpandPlaceholder([], block);
    }
    ExpandAppend(head, one, block);
    ExpandWithoutPlaceholder(head, block);
    assert ExpandPlaceholder(head + one, block) == head + block;
    ExpandAppend(head + one, tail, block);
    ExpandWithoutPlaceholder(tail, block);
  }

  /// The exact layout of a Java worker command whose configured command holds one
  /// placeholder between `head` and `tail`.
  lemma JavaCommandLayout(head: seq<string>, tail: seq<string>, codeSearchPath: seq<string>,
                          jvmOptions: seq<string>, token: nat, envHash: int,
                          dynamicOptions: seq<string>)
    requires DYNAMIC_OPTION_PLACEHOLDER !in head && DYNAMIC_OPTION_PLACEHOLDER !in tail
    ensures JavaCommand(head + [DYNAMIC_OPTION_PLACEHOLDER] + tail, codeSearchPath, jvmOptions,
                        token, envHash, dynamicOptions)
         == head + (JavaJobOptions(codeSearchPath) + jvmOptions
                    + JavaProcessOptions(token, envHash) + dynamicOptions)
            + tail + [JAVA_LANGUAGE_FLAG]
  {
    var block := JavaJobOptions(codeSearchPath) + jvmOptions
                 + JavaProcessOptions(token, envHash) + dynamicOptions;
    var base := head + [DYNAMIC_OPTION_PLACEHOLDER] + tail;
    assert JavaCommand(base, codeSearchPath, jvmOptions, token, envHash, dynamicOptions)
        == ExpandPlaceholder(base, block) + [JAVA_LANGUAGE_FLAG];
    ExpandOne(head, tail, block);
  }

  /// The fixture's Java command `java <placeholder> MainClass` with one code search
  /// path, startup token 0 and hash 0 gives exactly the command the test expects.
  lemma JavaCommandFixture(jvmOptions: seq<string>, dynamicOptions: seq<string>)
    ensures JavaCommand(["java", DYNAMIC_OPTION_PLACEHOLDER, "MainClass"],
                        ["/test/code_search_path"], jvmOptions, 0, 0, dynamicOptions)
         == ["java", JAVA_CODE_SEARCH_PATH_KEY + "/test/code_search_path"] + jvmOptions
            + [JAVA_STARTUP_TOKEN_KEY + "0", JAVA_ENV_HASH_KEY + "0"]
            + dynamicOptions + ["MainClass", JAVA_LANGUAGE_FLAG]
  {
    assert ["java", DYNAMIC_OPTION_PLACEHOLDER, "MainClass"]
        == ["java"] + [DYNAMIC_OPTION_PLACEHOLDER] + ["MainClass"];
    JavaCommandLayout(["java"], ["MainClass"], ["/test/code_search_path"], jvmOptions, 0, 0,
                      dynamicOptions);
    assert NatToString(0) == "0" && IntToString(0) == "0";
  }

  lemma StartupArgWithoutH(token: nat)
    ensures 'h' !in STARTUP_TOKEN_KEY + NatToString(token)
  {
    var d := NatToString(token);
    assert 'h' !in STARTUP_TOKEN_KEY;
    assert forall i :: 0 <= i < |d| ==> d[i] != 'h';
  }

  lemma NodeArgWithoutH(nodeId: string)
    requires 'h' !in nodeId
    ensures 'h' !in NODE_ID_KEY + nodeId
  {
    assert 'h' !in NODE_ID_KEY;
  }

  /// The Python command carries `--node-id=<id>`, and the fixture reads the request's
  /// runtime env hash back out of it, provided the configured command and the node id
  /// (hex text) have no letter 'h'.
  lemma PythonCommandHash(base: seq<string>, token: nat, nodeId: string, envHash: int)
    requires forall i :: 0 <= i < |base| ==> 'h' !in base[i]
    requires 'h' !in nodeId
    ensures NODE_ID_KEY + nodeId in PythonCommand(base, token, nodeId, envHash)
    ensures ScanEnvHash(PythonCommand(base, token, nodeId, envHash)) == Some(envHash)
  {
    var startArg := STARTUP_TOKEN_KEY + NatToString(token);
    var nodeArg := NODE_ID_KEY + nodeId;
    var hashArg := RUNTIME_ENV_HASH_KEY + IntToString(envHash);
    var prefix := base + [startArg, nodeArg];
    var cmd := PythonCommand(base, token, nodeId, envHash);
    assert cmd == prefix + [hashArg];
    assert cmd[..|cmd| - 1] == prefix;
    assert cmd[|cmd| - 2] == nodeArg;
    StartupArgWithoutH(token);
    NodeArgWithoutH(nodeId);
    assert forall i :: 0 <= i < |prefix| ==> 'h' !in prefix[i];
    ScanWithoutKey(prefix);
    HashArgParses(envHash);
  }
  // ---------------------------------------------------------------------------
  // The fixture's scan over a command line

  const JAVA_MARKER: string := "java"

  /// Some argument contains the text "java".
  predicate MentionsJava(args: seq<string>)
  {
    exists i :: 0 <= i < |args| && Find(args[i], JAVA_MARKER).Some?
  }

  /// One more argument mentions Java exactly when it or an earlier one does.
  lemma MentionsJavaStep(args: seq<string>, i: nat)
    requires i < |args|
    ensures MentionsJava(args[..i + 1]) <==> MentionsJava(args[..i]) || Find(args[i], JAVA_MARKER).Some?
  {
    if MentionsJava(args[..i]) {
      var k :| 0 <= k < i && Find(args[..i][k], JAVA_MARKER).Some?;
      assert args[..i + 1][k] == args[..i][k];
    }
    if Find(args[i], JAVA_MARKER).Some? {
      assert args[..i + 1][i] == args[i];
    }
    if MentionsJava(args[..i + 1]) {
      var k :| 0 <= k < i + 1 && Find(args[..i + 1][k], JAVA_MARKER).Some?;
      if k < i {
        assert args[..i][k] == args[..i + 1][k];
      }
    }
  }

  /// The fixture's loop over the arguments of a launched process: the runtime env
  /// hash it reads back (the last hash argument wins) and whether the worker is Java.
  method ParseCommand(args: seq<string>) returns (hash: Option<int>, isJava: bool)
    ensures hash == ScanEnvHash(args)
    ensures isJava <==> MentionsJava(args)
  {
    hash, isJava := Some(0), false;
    var i := 0;
    while i < |args|
      invariant 0 <= i <= |args|
      invariant hash == ScanEnvHash(args[..i])
      invariant isJava <==> MentionsJava(args[..i])
    {
      assert args[..i + 1][..i] == args[..i];
      hash := ScanStep(hash, args[i]);
      if Find(args[i], JAVA_MARKER).Some? {
        isJava := true;
      }
      MentionsJavaStep(args, i);
      i := i + 1;
    }
    assert args[..|args|] == args;
  }

  /// Expanding the placeholder keeps every other argument of the configured command.
  lemma {:induction false} ExpandKeeps(base: seq<string>, block: seq<string>, a: string)
    requires a in base && a != DYNAMIC_OPTION_PLACEHOLDER
    ensures a in ExpandPlaceholder(base, block)
    decreases |base|
  {
    var head := if base[0] == DYNAMIC_OPTION_PLACEHOLDER then block else [base[0]];
    assert ExpandPlaceholder(base, block) == head + ExpandPlaceholder(base[1..], block);
    if base[0] != a {
      ExpandKeeps(base[1..], block, a);
    }
  }

  /// A Java command built from a configured command whose program is `java` is read
  /// back as a Java worker.
  lemma JavaCommandIsJava(base: seq<string>, codeSearchPath: seq<string>, jvmOptions: seq<string>,
                          token: nat, envHash: int, dynamicOptions: seq<string>)
    requires JAVA_MARKER in base
    ensures MentionsJava(JavaCommand(base, codeSearchPath, jvmOptions, token, envHash, dynamicOptions))
  {
    var block := JavaJobOptions(codeSearchPath) + jvmOptions + JavaProcessOptions(token, envHash) + dynamicOptions;
    ExpandKeeps(base, block, JAVA_MARKER);
    var cmd := JavaCommand(base, codeSearchPath, jvmOptions, token, envHash, dynamicOptions);
    var k :| 0 <= k < |ExpandPlaceholder(base, block)| && ExpandPlaceholder(base, block)[k] == JAVA_MARKER;
    assert cmd[k] == JAVA_MARKER;
    assert OccursAt(JAVA_MARKER, JAVA_MARKER, 0);
  }
}
