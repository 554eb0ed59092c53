/** Starting a child: a dozen acquisitions, any of which may fail, and the release
    code that gives back whatever had been acquired. */
module ProcessStart {
  import opened ProcessTrace
  import opened OperatingSystem
  import opened Resources
  import opened Supervisor
  import opened ProcessPump

  datatype Request = Request(
    program: seq<Byte>, args: seq<seq<Byte>>, cwd: seq<Byte>, env: seq<seq<Byte>>,
    input: Option<seq<Byte>>, capture: bool, maxOutput: int)

  const SEQUENCE_LIMIT: nat := 0x7fff_ffff

  // ----- what a request must look like -----

  predicate HasNul(s: seq<Byte>) {
    0 in s
  }

  predicate IsKeyByte(b: Byte, first: bool) {
    (97 <= b <= 122) || (65 <= b <= 90) || b == 95 || (!first && 48 <= b <= 57)
  }

  /** The length of the key before '=', 0 when the entry has no valid one. */
  function EnvKey(entry: seq<Byte>, i: nat := 0): (k: nat)
    requires i <= |entry|
    ensures k <= |entry|
    ensures k > 0 ==> i <= k < |entry| && entry[k] == 61
    ensures k > 0 ==> forall j | i <= j < k :: entry[j] != 61 && IsKeyByte(entry[j], j == 0)
    decreases |entry| - i
  {
    if i == |entry| then 0
    else if entry[i] == 61 then i
    else if !IsKeyByte(entry[i], i == 0) then 0
    else EnvKey(entry, i + 1)
  }

  /** The first k bytes are a key that '=' follows: no '=' before it, key bytes only. */
  predicate KeyEndsAt(entry: seq<Byte>, k: nat) {
    0 < k < |entry| && entry[k] == 61 && forall j | 0 <= j < k :: entry[j] != 61 && IsKeyByte(entry[j], j == 0)
  }

  /** The key found is the only one there can be; none is found exactly when the entry
      has none. */
  lemma EnvKeyExact(entry: seq<Byte>)
    ensures EnvKey(entry) > 0 ==> KeyEndsAt(entry, EnvKey(entry))
    ensures forall k | KeyEndsAt(entry, k) :: EnvKey(entry) == k
  {
    forall k | KeyEndsAt(entry, k)
      ensures EnvKey(entry) == k
    {
      EnvKeyReaches(entry, 0, k);
    }
  }

  lemma {:induction false} EnvKeyReaches(entry: seq<Byte>, i: nat, k: nat)
    requires KeyEndsAt(entry, k) && i <= k
    ensures EnvKey(entry, i) == k
    decreases k - i
  {
    if i < k {
      EnvKeyReaches(entry, i + 1, k);
    }
  }

  predicate SameKey(a: seq<Byte>, b: seq<Byte>) {
    EnvKey(a) == EnvKey(b) && a[..EnvKey(a)] == b[..EnvKey(b)]
  }

  /** Every entry has a key and no two entries share one. */
  ghost predicate ValidEnvironment(env: seq<seq<Byte>>) {
    && (forall i | 0 <= i < |env| :: EnvKey(env[i]) > 0)
    && (forall i, j | 0 <= i < j < |env| :: !SameKey(env[i], env[j]))
  }

  predicate ValidShape(r: Request) {
    && r.program != [] && r.program[0] == 47 && !HasNul(r.program)
    && r.cwd != [] && !HasNul(r.cwd)
    && (forall i | 0 <= i < |r.args| :: !HasNul(r.args[i]))
    && (forall i | 0 <= i < |r.env| :: !HasNul(r.env[i]))
    && 0 <= r.maxOutput <= SEQUENCE_LIMIT
    && (r.capture || r.maxOutput == 0)
  }

  method CheckEnvironment(env: seq<seq<Byte>>) returns (ok: bool)
    ensures ok <==> ValidEnvironment(env)
  {
    var index := 0;
    while index < |env|
      invariant 0 <= index <= |env|
      invariant ValidEnvironment(env[..index])
    {
      var key := EnvKey(env[index]);
      if key == 0 {
        return false;
      }
      var duplicate := false;
      var previous := 0;
      while previous < index
        invariant 0 <= previous <= index
        invariant duplicate <==> exists p :: 0 <= p < previous && SameKey(env[p], env[index])
      {
        if EnvKey(env[previous]) == key && env[index][..key] == env[previous][..key] {
          duplicate := true;
          assert SameKey(env[previous], env[index]);
        }
        previous := previous + 1;
      }
      if duplicate {
        return false;
      }
      assert env[..index + 1] == env[..index] + [env[index]];
      index := index + 1;
    }
    assert env[..|env|] == env;
    ok := true;
  }

  /** The first '=' of an inherited entry, or its length. */
  function EqualsAt(entry: seq<Byte>, i: nat := 0): (k: nat)
    requires i <= |entry|
    ensures i <= k <= |entry|
    decreases |entry| - i
  {
    if i == |entry| || entry[i] == 61 then i else EqualsAt(entry, i + 1)
  }

  /** An inherited entry gives way to a requested one with the same key. */
  predicate Replaced(entry: seq<Byte>, env: seq<seq<Byte>>) {
    var k := EqualsAt(entry);
    k < |entry| && exists i :: 0 <= i < |env| && EnvKey(env[i]) == k && entry[..k] == env[i][..k]
  }

  lemma {:induction false} EqualsAtReaches(entry: seq<Byte>, i: nat, k: nat)
    requires i <= k <= |entry| && (forall j | i <= j < k :: entry[j] != 61) && (k < |entry| ==> entry[k] == 61)
    ensures EqualsAt(entry, i) == k
    decreases k - i
  {
    if i < k {
      EqualsAtReaches(entry, i + 1, k);
    }
  }

  lemma {:induction false} EqualsAtFirst(entry: seq<Byte>, i: nat)
    requires i <= |entry|
    ensures var k := EqualsAt(entry, i);
      (k < |entry| ==> entry[k] == 61) && forall j | i <= j < k :: entry[j] != 61
    decreases |entry| - i
  {
    if i < |entry| && entry[i] != 61 {
      EqualsAtFirst(entry, i + 1);
    }
  }

  /** These two entries set the same name. */
  ghost predicate SetsSameName(a: seq<Byte>, b: seq<Byte>) {
    exists k: nat :: KeyEndsAt(a, k) && KeyEndsAt(b, k) && a[..k] == b[..k]
  }

  /** An inherited entry is replaced if and only if some requested one sets the same
      name: then, and only then, the child would see the name twice. */
  lemma ReplacedIff(entry: seq<Byte>, env: seq<seq<Byte>>)
    requires ValidEnvironment(env)
    ensures Replaced(entry, env) <==> exists i :: 0 <= i < |env| && SetsSameName(entry, env[i])
  {
    EqualsAtFirst(entry, 0);
    if Replaced(entry, env) {
      var k := EqualsAt(entry);
      var i :| 0 <= i < |env| && EnvKey(env[i]) == k && entry[..k] == env[i][..k];
      EnvKeyExact(env[i]);
      assert forall j | 0 <= j < k :: entry[j] == entry[..k][j] == env[i][..k][j] == env[i][j];
      assert KeyEndsAt(entry, k);
    }
    if i :| 0 <= i < |env| && SetsSameName(entry, env[i]) {
      var k: nat :| KeyEndsAt(entry, k) && KeyEndsAt(env[i], k) && entry[..k] == env[i][..k];
      EnvKeyExact(env[i]);
      EqualsAtReaches(entry, 0, k);
    }
  }

  // ----- descriptors that survive remapping -----

  /** Moves a descriptor above the standard three, or marks it close-on-exec; on
      failure it is closed. */
  method SetupFd(fd: int, os: Os) returns (result: int)
    requires fd in os.open && fd >= 0
    modifies os`open, os`faults
    ensures result >= -1
    ensures os.faults == old(os.faults) + if result == -1 then 1 else 0
    ensures result == -1 ==> os.open == old(os.open) - {fd}
    ensures result >= 0 ==> os.open == old(os.open) - {fd} + {result}
    ensures result >= 0 ==> result > 2 && (result == fd || result !in old(os.open))
  {
    if fd <= 2 {
      result := os.DuplicateAbove(fd);
      os.Close(fd);
      return;
    }
    var failure := os.Control(fd);
    if failure.Some? {
      os.Close(fd);
      return -1;
    }
    result := fd;
  }

  /** A pipe whose ends both survive; whatever is left after a failure stays in
      the pair for the caller to close. */
  method MakePipe(os: Os) returns (error: Option<Errno>, readEnd: int, writeEnd: int)
    modifies os`open, os`faults
    ensures OpenPlus(os, old(os.open), [readEnd, writeEnd])
    ensures error.None? ==> readEnd >= 0 && writeEnd >= 0
    ensures os.faults == old(os.faults) + if error.Some? then 1 else 0
  {
    error, readEnd, writeEnd := os.Pipe();
    if error.Some? {
      return error, -1, -1;
    }
    readEnd := SetupFd(readEnd, os);
    if readEnd < 0 {
      return Some(EIO), readEnd, writeEnd;
    }
    writeEnd := SetupFd(writeEnd, os);
    if writeEnd < 0 {
      error := Some(EIO);
    }
  }

  method Nonblocking(fd: int, os: Os) returns (error: Option<Errno>)
    requires fd in os.open
    modifies os`faults
    ensures os.faults == old(os.faults) + if error.Some? then 1 else 0
  {
    error := os.Control(fd);
    if error.None? {
      error := os.Control(fd);
    }
  }

  // ----- the vectors handed to exec -----

  /** The argument and environment vectors and the copies they point to. The
      first envBorrowed environment entries belong to the parent's environment;
      only the later ones are copies. */
  datatype Vectors = Vectors(argv: nat, envp: nat, executable: nat, directory: nat,
                             argCopies: seq<nat>, envEntries: seq<nat>, envBorrowed: nat)

  const NO_VECTORS: Vectors := Vectors(0, 0, 0, 0, [], [], 0)

  predicate ValidVectors(v: Vectors) {
    v.envBorrowed <= |v.envEntries|
  }

  /** What releasing the vectors must free. */
  function Scratch(v: Vectors): seq<nat>
    requires ValidVectors(v)
  {
    [v.argv, v.envp, v.executable, v.directory] + v.argCopies + v.envEntries[v.envBorrowed..]
  }

  /** Copies strings one by one, stopping at the first failure. */
  method CopyEach(count: nat, os: Os, ghost heap: set<int>, ghost held: seq<nat>) returns (ok: bool, copies: seq<nat>)
    requires HeapPlus(os, heap, held)
    modifies os`heap, os`refused
    ensures HeapPlus(os, heap, held + copies)
    ensures ok ==> |copies| == count
    ensures os.refused == old(os.refused) + if ok then 0 else 1
  {
    copies := [];
    assert held + copies == held;
    while |copies| < count
      invariant HeapPlus(os, heap, held + copies) && |copies| <= count && os.refused == old(os.refused)
      decreases count - |copies|
    {
      var copy := AllocOnto(os, heap, held + copies);
      if copy == 0 {
        assert held + copies + [0] == (held + copies) + [0];
        BlocksAppend(held + copies, 0);
        return false, copies;
      }
      assert held + copies + [copy] == held + (copies + [copy]);
      copies := copies + [copy];
    }
    ok := true;
  }

  /** The inherited entries that stay: those whose key is not requested anew. */
  function Kept(environ: seq<seq<Byte>>, pointers: seq<nat>, env: seq<seq<Byte>>, n: nat): (kept: seq<nat>)
    requires |pointers| == |environ| && n <= |environ|
    ensures |kept| <= n && forall p | p in kept :: p in pointers
  {
    if n == 0 then []
    else Kept(environ, pointers, env, n - 1) + if Replaced(environ[n - 1], env) then [] else [pointers[n - 1]]
  }

  /** Which inherited entries stay. */
  ghost function KeptIndices(environ: seq<seq<Byte>>, env: seq<seq<Byte>>, n: nat): (kept: seq<nat>)
    requires n <= |environ|
    ensures forall j | 0 <= j < |kept| :: kept[j] < n
    ensures forall j, k | 0 <= j < k < |kept| :: kept[j] < kept[k]
  {
    if n == 0 then [] else KeptIndices(environ, env, n - 1) + if Replaced(environ[n - 1], env) then [] else [n - 1]
  }

  lemma {:induction false} KeptIsIndexed(environ: seq<seq<Byte>>, pointers: seq<nat>, env: seq<seq<Byte>>, n: nat)
    requires |pointers| == |environ| && n <= |environ|
    ensures var kept := KeptIndices(environ, env, n);
      && |Kept(environ, pointers, env, n)| == |kept|
      && forall j | 0 <= j < |kept| :: Kept(environ, pointers, env, n)[j] == pointers[kept[j]]
  {
    hide Replaced;
    if n > 0 {
      KeptIsIndexed(environ, pointers, env, n - 1);
    }
  }

  lemma {:induction false} KeptMembers(environ: seq<seq<Byte>>, env: seq<seq<Byte>>, n: nat, i: nat)
    requires n <= |environ|
    ensures i in KeptIndices(environ, env, n) <==> i < n && !Replaced(environ[i], env)
  {
    hide Replaced;
    if n > 0 {
      KeptMembers(environ, env, n - 1, i);
    }
  }

  /** The child's environment keeps every inherited entry whose name no requested one
      sets, in the order in which they were inherited, and no other. */
  lemma KeptExact(environ: seq<seq<Byte>>, pointers: seq<nat>, env: seq<seq<Byte>>)
    requires |pointers| == |environ| && ValidEnvironment(env)
    ensures var kept, indices := Kept(environ, pointers, env, |environ|), KeptIndices(environ, env, |environ|);
      && |kept| == |indices| && (forall j | 0 <= j < |kept| :: kept[j] == pointers[indices[j]])
      && (forall j, k | 0 <= j < k < |indices| :: indices[j] < indices[k])
      && forall i | 0 <= i < |environ| ::
           i in indices <==> !exists j :: 0 <= j < |env| && SetsSameName(environ[i], env[j])
  {
    hide Replaced, SetsSameName, ValidEnvironment, Kept, KeptIndices;
    KeptIsIndexed(environ, pointers, env, |environ|);
    forall i | 0 <= i < |environ|
      ensures i in KeptIndices(environ, env, |environ|) <==>
                !exists j :: 0 <= j < |env| && SetsSameName(environ[i], env[j])
    {
      KeptMembers(environ, env, |environ|, i);
      ReplacedIff(environ[i], env);
    }
  }

  /** Inherited entries that are not replaced, by reference. */
  method Inherit(environ: seq<seq<Byte>>, pointers: seq<nat>, env: seq<seq<Byte>>) returns (kept: seq<nat>)
    requires |pointers| == |environ|
    ensures kept == Kept(environ, pointers, env, |environ|)
  {
    kept := [];
    var index := 0;
    while index < |environ|
      invariant 0 <= index <= |environ| && kept == Kept(environ, pointers, env, index)
    {
      if !Replaced(environ[index], env) {
        kept := kept + [pointers[index]];
      }
      index := index + 1;
    }
  }

  /** Complete vectors: a copy of each argument; the inherited entries that stay,
      by reference, then a copy of each requested one. */
  ghost predicate Complete(v: Vectors, r: Request, environ: seq<seq<Byte>>, pointers: seq<nat>)
    requires |pointers| == |environ|
  {
    var kept := Kept(environ, pointers, r.env, |environ|);
    && |v.argCopies| == |r.args| && v.envBorrowed == |kept| && |v.envEntries| == |kept| + |r.env|
    && v.envEntries[..|kept|] == kept
  }

  /** Builds the vectors. Whether or not it gets to the end, what it reports is
      exactly what it holds. */
  method BuildVectors(r: Request, environ: seq<seq<Byte>>, pointers: seq<nat>, os: Os) returns (ok: bool, v: Vectors)
    requires |pointers| == |environ|
    modifies os`heap, os`refused
    ensures ValidVectors(v) && HeapPlus(os, old(os.heap), Scratch(v))
    ensures ok ==> Complete(v, r, environ, pointers)
    ensures ok ==> |environ| <= SEQUENCE_LIMIT && os.refused == old(os.refused)
    ensures !ok ==> |environ| > SEQUENCE_LIMIT || os.refused > old(os.refused)
  {
    ghost var heap := os.heap;
    v := NO_VECTORS;
    ok := false;
    NoBlocks(os, heap, 0);
    ghost var held: seq<nat> := [];
    assert held == seq(0, i => 0);
    if |environ| <= SEQUENCE_LIMIT {
      var argv := AllocOnto(os, heap, held);
      held := held + [argv];
      v := v.(argv := argv);
      if argv != 0 {
        var envp := AllocOnto(os, heap, held);
        held := held + [envp];
        v := v.(envp := envp);
        if envp != 0 {
          var executable := AllocOnto(os, heap, held);
          held := held + [executable];
          v := v.(executable := executable);
          if executable != 0 {
            var directory := AllocOnto(os, heap, held);
            held := held + [directory];
            v := v.(directory := directory);
            if directory != 0 {
              assert held == [v.argv, v.envp, v.executable, v.directory];
              ok, v := BuildCopies(r, environ, pointers, os, heap, v);
              return;
            }
          }
        }
      }
    }
    PadZeros(os, heap, held, 4 - |held|);
    assert held + seq(4 - |held|, i => 0) == Scratch(v);
  }

  method BuildCopies(r: Request, environ: seq<seq<Byte>>, pointers: seq<nat>, os: Os, ghost heap: set<int>, start: Vectors)
    returns (ok: bool, v: Vectors)
    requires |pointers| == |environ|
    requires start.argCopies == [] && start.envEntries == [] && start.envBorrowed == 0
    requires HeapPlus(os, heap, [start.argv, start.envp, start.executable, start.directory])
    modifies os`heap, os`refused
    ensures ValidVectors(v) && HeapPlus(os, heap, Scratch(v))
    ensures ok ==> Complete(v, r, environ, pointers)
    ensures os.refused == old(os.refused) + if ok then 0 else 1
  {
    ghost var held := [start.argv, start.envp, start.executable, start.directory];
    v := start;
    var copies;
    ok, copies := CopyEach(|r.args|, os, heap, held);
    v := v.(argCopies := copies);
    if !ok {
      assert Scratch(v) == held + copies;
      return;
    }
    var kept := Inherit(environ, pointers, r.env);
    var copied;
    ok, copied := CopyEach(|r.env|, os, heap, held + copies);
    v := v.(envEntries := kept + copied, envBorrowed := |kept|);
    assert v.envEntries[v.envBorrowed..] == copied;
    assert Scratch(v) == held + copies + copied;
  }

  // ----- pipes -----

  /** Pipe index is needed: input if there is any to give, output and error if
      captured, and always the one that reports exec failures. */
  predicate Needed(r: Request, index: nat) {
    !(index == 0 && r.input.None?) && !((index == 1 || index == 2) && !r.capture)
  }

  method OnePipe(r: Request, index: nat, os: Os) returns (error: Option<Errno>, readEnd: int, writeEnd: int)
    requires index < 4
    modifies os`open, os`faults
    ensures os.faults == old(os.faults) + if error.Some? then 1 else 0
    ensures OpenPlus(os, old(os.open), [readEnd, writeEnd])
    ensures error.None? && Needed(r, index) ==> readEnd >= 0 && writeEnd >= 0
    ensures !Needed(r, index) ==> readEnd == -1 && writeEnd == -1 && error.None?
  {
    error, readEnd, writeEnd := None, -1, -1;
    if Needed(r, index) {
      error, readEnd, writeEnd := MakePipe(os);
      DescriptorsHave([readEnd, writeEnd]);
      if error.None? && index < 3 {
        error := Nonblocking(if index == 0 then writeEnd else readEnd, os);
      }
    }
  }

  /** Opens the pipes the request needs. The eight ends are listed pipe by pipe,
      read end first, -1 for one that is not open. */
  method OpenPipes(r: Request, os: Os) returns (error: Option<Errno>, fds: seq<int>)
    modifies os`open, os`faults
    ensures os.faults == old(os.faults) + if error.Some? then 1 else 0
    ensures |fds| == 8 && OpenPlus(os, old(os.open), fds)
    ensures error.None? ==> forall i | 0 <= i < 4 ::
              if Needed(r, i) then fds[2 * i] >= 0 && fds[2 * i + 1] >= 0 else fds[2 * i] == -1 && fds[2 * i + 1] == -1
  {
    hide Needed, Descriptors, NoRepeat;
    fds := [];
    error := None;
    NothingOpened(os);
    var index := 0;
    while index < 4
      invariant 0 <= index <= 4 && |fds| == 2 * index
      invariant OpenPlus(os, old(os.open), fds)
      invariant os.faults == old(os.faults) + if error.Some? then 1 else 0
      invariant error.None? ==> forall i | 0 <= i < index ::
                  if Needed(r, i) then fds[2 * i] >= 0 && fds[2 * i + 1] >= 0
                  else fds[2 * i] == -1 && fds[2 * i + 1] == -1
    {
      ghost var mid := os.open;
      var readEnd, writeEnd := -1, -1;
      if error.None? {
        error, readEnd, writeEnd := OnePipe(r, index, os);
      } else {
        NothingMore(os);
      }
      OpenPlusConcat(os, old(os.open), mid, fds, [readEnd, writeEnd]);
      fds := fds + [readEnd, writeEnd];
      index := index + 1;
    }
  }

  lemma NothingOpened(os: Os)
    ensures OpenPlus(os, os.open, [])
  {
    assert Descriptors([]) == {};
  }

  lemma NothingMore(os: Os)
    ensures OpenPlus(os, os.open, [-1, -1])
  {
    assert Descriptors([-1, -1]) == {};
  }
}
