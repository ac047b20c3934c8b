/** The part of the EVM that chunk init code exercises: straight-line execution and
    contract creation (Yellow Paper, Appendix H; PUSH0 from the Specification section
    of EIP-3855; code size limits from EIP-170 and EIP-3860; the 0xEF rule from EIP-3541). */
module Evm {
  import opened Common

  const STOP: byte := 0x00
  const CODECOPY: byte := 0x39
  const PUSH0: byte := 0x5f
  const PUSH1: byte := 0x60
  const PUSH2: byte := 0x61
  const DUP1: byte := 0x80
  const RETURN: byte := 0xf3

  const MAX_CODE_SIZE: nat := 24_576
  const MAX_INIT_CODE_SIZE: nat := 49_152

  /** `length` bytes of `s` from `offset`, zero beyond its end. */
  function Slice(s: seq<byte>, offset: nat, length: nat): (r: seq<byte>)
    ensures |r| == length
  {
    seq(length, i requires 0 <= i < length => if offset + i < |s| then s[offset + i] else 0)
  }

  /** Memory after writing `data` at `at`; untouched memory reads as zero. */
  function Overwrite(memory: seq<byte>, at: nat, data: seq<byte>): seq<byte> {
    if data == [] then memory
    else
      seq(Max(|memory|, at + |data|), i requires 0 <= i =>
        if at <= i < at + |data| then data[i - at] else if i < |memory| then memory[i] else 0)
  }

  datatype Machine = Machine(pc: nat, stack: seq<nat>, memory: seq<byte>)

  datatype Outcome = Continue(machine: Machine) | Halt(output: seq<byte>) | Fault

  function OpcodeAt(code: seq<byte>, pc: nat): byte {
    if pc < |code| then code[pc] else STOP
  }

  /** One instruction. The top of the stack is its last element. */
  function Step(code: seq<byte>, m: Machine): (r: Outcome)
    ensures r.Continue? ==> m.pc < r.machine.pc && m.pc < |code|
  {
    var op, n := OpcodeAt(code, m.pc), |m.stack|;
    if op == STOP then Halt([])
    else if op == PUSH0 then Continue(Machine(m.pc + 1, m.stack + [0], m.memory))
    else if op == PUSH1 then Continue(Machine(m.pc + 2, m.stack + [Magnitude(Slice(code, m.pc + 1, 1))], m.memory))
    else if op == PUSH2 then Continue(Machine(m.pc + 3, m.stack + [Magnitude(Slice(code, m.pc + 1, 2))], m.memory))
    else if op == DUP1 then
      if n < 1 then Fault else Continue(Machine(m.pc + 1, m.stack + [m.stack[n - 1]], m.memory))
    else if op == CODECOPY then
      if n < 3 then Fault
      else Continue(Machine(m.pc + 1, m.stack[..n - 3],
                            Overwrite(m.memory, m.stack[n - 1], Slice(code, m.stack[n - 2], m.stack[n - 3]))))
    else if op == RETURN then
      if n < 2 then Fault else Halt(Slice(m.memory, m.stack[n - 1], m.stack[n - 2]))
    else Fault
  }

  function Execute(code: seq<byte>, m: Machine): Option<seq<byte>>
    decreases |code| - m.pc
  {
    match Step(code, m)
    case Continue(next) => Execute(code, next)
    case Halt(output) => Some(output)
    case Fault => None
  }

  /** The runtime code that creation with this init code installs, if the code rules allow it. */
  function Install(initCode: seq<byte>): Option<seq<byte>> {
    if |initCode| > MAX_INIT_CODE_SIZE then None
    else
      match Execute(initCode, Machine(0, [], []))
      case None => None
      case Some(runtime) =>
        if |runtime| > MAX_CODE_SIZE || (runtime != [] && runtime[0] == 0xef) then None else Some(runtime)
  }
}

/** Immutable byte storage in contract code, the resource router and the deploy script
    (contracts/src/ResurrectOnchainSite.sol, contracts/script/DeployResurrectExplorer.s.sol). */
module OnchainSite {
  import opened Common
  import opened Evm

  const MAX_CHUNK_BYTES: nat := 24_000
  const CHUNK_BYTES: nat := 24_000

  type Address = nat
  type CodeMap = map<Address, seq<byte>>

  datatype StorageError = EmptyChunk | ChunkTooLarge(length: nat) | ChunkDeploymentFailed

  // ----- Init code -----

  function InitCode(data: seq<byte>): seq<byte> {
    var runtimeLength := (|data| + 1) % 0x1_0000;
    [0x61] + BigEndian(2, runtimeLength) + [0x80, 0x60, 0x0a, 0x5f, 0x39, 0x5f, 0xf3, 0x00] + data
  }

  /** The assembled init code deploys the STOP sentinel followed by the payload: no length
      that the size check admits is truncated to 16 bits, and the result respects the code rules. */
  lemma InitCodeDeploysPayload(data: seq<byte>)
    requires 1 <= |data| <= MAX_CHUNK_BYTES
    ensures Install(InitCode(data)) == Some([0] + data)
  {
    var code, length := InitCode(data), |data| + 1;
    InitCodeLayout(data);
    var m0 := Machine(0, [], []);
    var m1 := Machine(3, [length], []);
    assert Step(code, m0) == Continue(m1);
    InitCodeTail(data, code, length);
    assert Execute(code, m0) == Execute(code, m1);
  }

  lemma InitCodeLayout(data: seq<byte>)
    requires 1 <= |data| <= MAX_CHUNK_BYTES
    ensures var code := InitCode(data);
      && |code| == |data| + 11
      && code[0] == PUSH2 && Magnitude(Slice(code, 1, 2)) == |data| + 1
      && code[3] == DUP1 && code[4] == PUSH1 && Slice(code, 5, 1) == [10] && code[6] == PUSH0
      && code[7] == CODECOPY && code[8] == PUSH0 && code[9] == RETURN
      && Slice(code, 10, |data| + 1) == [0] + data
  {
    hide BigEndian, Magnitude;
    var code, lengthBytes := InitCode(data), BigEndian(2, |data| + 1);
    LengthFits(|data| + 1);
    assert Slice(code, 1, 2) == lengthBytes by {
      assert code[1] == lengthBytes[0] && code[2] == lengthBytes[1];
    }
    assert Slice(code, 5, 1) == [10];
    assert Slice(code, 10, |data| + 1) == [0] + data;
  }

  lemma LengthFits(length: nat)
    requires length < 0x1_0000
    ensures Magnitude(BigEndian(2, length)) == length
  {
    assert Pow256(1) == 0x100;
    assert Pow256(2) == 0x1_0000;
    BigEndianRoundTrip(2, length);
  }

  lemma InitCodeTail(data: seq<byte>, code: seq<byte>, length: nat)
    requires |code| == length + 10 && length == |data| + 1
    requires code[3] == DUP1 && code[4] == PUSH1 && Slice(code, 5, 1) == [10] && code[6] == PUSH0
    requires code[7] == CODECOPY && code[8] == PUSH0 && code[9] == RETURN
    requires Slice(code, 10, length) == [0] + data
    ensures Execute(code, Machine(3, [length], [])) == Some([0] + data)
  {
    var runtime := [0] + data;
    assert Magnitude([10]) == 10 by { assert [10 as byte][..0] == []; }
    var m1 := Machine(3, [length], []);
    var m2 := Machine(4, [length, length], []);
    var m3 := Machine(6, [length, length, 10], []);
    var m4 := Machine(7, [length, length, 10, 0], []);
    var m5 := Machine(8, [length], runtime);
    var m6 := Machine(9, [length, 0], runtime);
    assert Step(code, m1) == Continue(m2);
    assert Step(code, m2) == Continue(m3);
    assert Step(code, m3) == Continue(m4);
    assert Overwrite([], 0, runtime) == runtime;
    assert Step(code, m4) == Continue(m5);
    assert Step(code, m5) == Continue(m6);
    assert Slice(runtime, 0, length) == runtime;
    assert Step(code, m6) == Halt(runtime);
    assert Execute(code, m6) == Some(runtime);
    assert Execute(code, m5) == Some(runtime);
    assert Execute(code, m4) == Some(runtime);
    assert Execute(code, m3) == Some(runtime);
    assert Execute(code, m2) == Some(runtime);
  }

  // ----- Storage reads -----

  function PayloadSize(code: CodeMap, pointer: Address): nat {
    var length := if pointer in code then |code[pointer]| else 0;
    if length == 0 then 0 else length - 1
  }

  /** Everything after the sentinel byte. */
  function Payload(code: CodeMap, pointer: Address): (r: seq<byte>)
    ensures |r| == PayloadSize(code, pointer)
  {
    if pointer in code && |code[pointer]| > 0 then code[pointer][1..] else []
  }

  method Copy(code: CodeMap, pointer: Address, output: array<byte>, outputOffset: nat)
    requires outputOffset + PayloadSize(code, pointer) <= output.Length
    modifies output
    ensures output[..] == old(output[..outputOffset]) + Payload(code, pointer) + old(output[outputOffset + PayloadSize(code, pointer)..])
  {
    var length := PayloadSize(code, pointer);
    var source := Slice(if pointer in code then code[pointer] else [], 1, length);
    assert source == Payload(code, pointer);
    hide Payload, PayloadSize;
    ghost var before := output[..];
    forall i | 0 <= i < length {
      output[outputOffset + i] := source[i];
    }
    SplicedIn(before, output[..], outputOffset, source);
  }

  /** A sequence that differs from another only in one stretch. */
  lemma SplicedIn(before: seq<byte>, after: seq<byte>, at: nat, source: seq<byte>)
    requires at + |source| <= |before| == |after|
    requires forall i :: 0 <= i < |after| ==> after[i] == if at <= i < at + |source| then source[i - at] else before[i]
    ensures after == before[..at] + source + before[at + |source|..]
  {
  }

  /** The chain state that creation touches. `refuses(n)` says that the n-th creation
      fails for reasons outside this model, such as gas. */
  class World {
    const refuses: nat -> bool
    var code: CodeMap
    var nonce: nat

    ghost predicate Valid()
      reads this
    {
      forall p :: p in code ==> p <= nonce
    }

    constructor (refuses: nat -> bool)
      ensures Valid() && code == map[] && nonce == 0 && this.refuses == refuses
    {
      this.refuses := refuses;
      code := map[];
      nonce := 0;
    }

    /** CREATE: the zero address on failure, else a never-used address holding the installed code. */
    method Create(initCode: seq<byte>) returns (pointer: Address)
      requires Valid()
      modifies this
      ensures Valid() && nonce == old(nonce) + 1
      ensures pointer == 0 <==> refuses(old(nonce)) || Install(initCode).None?
      ensures pointer == 0 ==> code == old(code)
      ensures pointer != 0 ==> pointer == nonce && pointer !in old(code) && code == old(code)[pointer := Install(initCode).value]
    {
      var installed := Install(initCode);
      if refuses(nonce) || installed.None? {
        pointer := 0;
      } else {
        pointer := nonce + 1;
        code := code[pointer := installed.value];
      }
      nonce := nonce + 1;
    }

    method Write(data: seq<byte>) returns (r: Result<Address, StorageError>)
      requires Valid()
      modifies this
      ensures Valid() && nonce == old(nonce) + if 1 <= |data| <= 24_000 then 1 else 0
      ensures |data| == 0 ==> r == Failure(EmptyChunk)
      ensures |data| > 24_000 ==> r == Failure(ChunkTooLarge(|data|))
      ensures 1 <= |data| <= 24_000 ==> r == if refuses(old(nonce)) then Failure(ChunkDeploymentFailed) else Success(nonce)
      ensures r.Failure? ==> code == old(code)
      ensures r.Success? ==> r.value !in old(code) && code == old(code)[r.value := [0] + data]
      ensures r.Success? ==> Payload(code, r.value) == data
    {
      if |data| == 0 {
        return Failure(EmptyChunk);
      }
      if |data| > MAX_CHUNK_BYTES {
        return Failure(ChunkTooLarge(|data|));
      }
      InitCodeDeploysPayload(data);
      var pointer := Create(InitCode(data));
      if pointer == 0 {
        return Failure(ChunkDeploymentFailed);
      }
      return Success(pointer);
    }

    /** The deploy script's splitting of one file. */
    method DeployChunks(file: seq<byte>) returns (r: Result<seq<Address>, StorageError>)
      requires Valid()
      modifies this
      ensures Valid() && Extends(old(code), code)
      ensures r.Failure? <==> exists n :: old(nonce) <= n < old(nonce) + ChunkCount(|file|) && refuses(n)
      ensures r.Failure? ==> r.error == ChunkDeploymentFailed
      ensures r.Success? ==> ChunksOk(code, r.value) && ChunkBytes(code, r.value) == file && |r.value| == ChunkCount(|file|)
      ensures r.Success? ==> nonce == old(nonce) + ChunkCount(|file|)
    {
      hide Install, InitCode, ChunkBytes, ChunksOk, Extends, Payload;
      var count := (|file| + CHUNK_BYTES - 1) / CHUNK_BYTES;
      var chunks: seq<Address> := [];
      var i := 0;
      NoChunks(code, file);
      while i < count
        invariant 0 <= i <= count && |chunks| == i && nonce == old(nonce) + i
        invariant Valid() && Extends(old(code), code)
        invariant forall n :: old(nonce) <= n < old(nonce) + i ==> !refuses(n)
        invariant ChunksOk(code, chunks) && ChunkBytes(code, chunks) == file[..Min(i * CHUNK_BYTES, |file|)]
      {
        var offset := i * CHUNK_BYTES;
        var length := |file| - offset;
        if length > CHUNK_BYTES {
          length := CHUNK_BYTES;
        }
        var chunk := CopyOut(file, offset, length);
        ghost var was := code;
        var written := Write(chunk);
        if written.Failure? {
          return Failure(written.error);
        }
        ExtendsStep(old(code), was, code, written.value, chunk);
        ChunkAppended(was, code, chunks, written.value, chunk);
        assert file[..offset] + chunk == file[..offset + length];
        chunks := chunks + [written.value];
        i := i + 1;
      }
      assert file[..|file|] == file;
      return Success(chunks);
    }
  }

  function ChunkCount(length: nat): (n: nat)
    ensures length <= n * 24_000 && (n > 0 ==> (n - 1) * 24_000 < length)
  {
    (length + CHUNK_BYTES - 1) / CHUNK_BYTES
  }

  /** The inner byte-by-byte loop of the splitter. */
  method CopyOut(file: seq<byte>, offset: nat, length: nat) returns (chunk: seq<byte>)
    requires offset + length <= |file|
    ensures chunk == file[offset..offset + length]
  {
    var buffer := new byte[length](_ => 0);
    var j := 0;
    while j < length
      invariant 0 <= j <= length
      invariant forall k :: 0 <= k < j ==> buffer[k] == file[offset + k]
    {
      buffer[j] := file[offset + j];
      j := j + 1;
    }
    chunk := buffer[..];
  }

  // ----- Chunk lists -----

  ghost predicate Extends(before: CodeMap, after: CodeMap) {
    forall p :: p in before ==> p in after && after[p] == before[p]
  }

  /** Every chunk holds between 1 and 24,000 payload bytes. */
  predicate ChunksOk(code: CodeMap, chunks: seq<Address>) {
    forall j :: 0 <= j < |chunks| ==> 0 < PayloadSize(code, chunks[j]) <= 24_000
  }

  function ChunkBytes(code: CodeMap, chunks: seq<Address>): seq<byte> {
    if chunks == [] then [] else ChunkBytes(code, chunks[..|chunks| - 1]) + Payload(code, chunks[|chunks| - 1])
  }

  lemma {:induction false} ChunkBytesStable(before: CodeMap, after: CodeMap, chunks: seq<Address>)
    requires Extends(before, after) && ChunksOk(before, chunks)
    ensures ChunksOk(after, chunks) && ChunkBytes(after, chunks) == ChunkBytes(before, chunks)
  {
    if chunks != [] {
      var n := |chunks| - 1;
      ChunkBytesStable(before, after, chunks[..n]);
      assert 0 < PayloadSize(before, chunks[n]);
      assert chunks == chunks[..n] + [chunks[n]];
    }
  }

  lemma NoChunks(code: CodeMap, file: seq<byte>)
    ensures ChunksOk(code, []) && ChunkBytes(code, []) == file[..0] && Extends(code, code)
  {
  }

  lemma ExtendsStep(first: CodeMap, before: CodeMap, after: CodeMap, pointer: Address, chunk: seq<byte>)
    requires Extends(first, before) && pointer !in before && after == before[pointer := [0] + chunk]
    ensures Extends(first, after)
  {
  }

  lemma ChunkAppended(before: CodeMap, after: CodeMap, chunks: seq<Address>, pointer: Address, chunk: seq<byte>)
    requires ChunksOk(before, chunks) && pointer !in before && after == before[pointer := [0] + chunk]
    requires 0 < |chunk| <= MAX_CHUNK_BYTES
    ensures ChunksOk(after, chunks + [pointer])
    ensures ChunkBytes(after, chunks + [pointer]) == ChunkBytes(before, chunks) + chunk
  {
    ChunkBytesStable(before, after, chunks);
    assert (chunks + [pointer])[..|chunks|] == chunks;
    assert Payload(after, pointer) == chunk;
  }

  lemma {:induction false} ChunkBytesPrefix(code: CodeMap, chunks: seq<Address>, n: nat)
    requires n <= |chunks|
    ensures |ChunkBytes(code, chunks[..n])| <= |ChunkBytes(code, chunks)|
    ensures n < |chunks| ==>
              && ChunkBytes(code, chunks[..n + 1]) == ChunkBytes(code, chunks[..n]) + Payload(code, chunks[n])
              && |ChunkBytes(code, chunks[..n])| + PayloadSize(code, chunks[n]) <= |ChunkBytes(code, chunks)|
    decreases |chunks| - n
  {
    if n < |chunks| {
      ChunkBytesPrefix(code, chunks, n + 1);
      assert chunks[..n + 1][..n] == chunks[..n];
    } else {
      assert chunks[..n] == chunks;
    }
  }

  // ----- The resource router -----

  type Hash = seq<byte>

  datatype Resource = Resource(contentType: string, chunks: seq<Address>, length: nat)

  datatype Site = Site(resources: map<Hash, Resource>, manifestHash: Hash)

  datatype SiteError =
    | ArrayLengthMismatch
    | DuplicatePath(pathHash: Hash)
    | EmptyResource(pathHash: Hash)
    | InvalidChunk(pathHash: Hash, chunk: Address)
    | ResourceLengthMismatch(pathHash: Hash, expected: nat, actual: nat)
    | MissingIndex

  datatype SiteArguments = SiteArguments(
    pathHashes: seq<Hash>,
    contentTypes: seq<string>,
    chunks: seq<seq<Address>>,
    lengths: seq<nat>,
    manifestHash: Hash)
  {
    predicate SameLengths() {
      |pathHashes| > 0 && |contentTypes| == |pathHashes| && |chunks| == |pathHashes| && |lengths| == |pathHashes|
    }
  }

  /** Resource `i` is non-empty, made of well-sized chunks, and exactly as long as declared. */
  predicate ResourceOk(code: CodeMap, args: SiteArguments, i: nat)
    requires args.SameLengths() && i < |args.pathHashes|
  {
    && args.lengths[i] != 0 && args.chunks[i] != []
    && ChunksOk(code, args.chunks[i])
    && |ChunkBytes(code, args.chunks[i])| == args.lengths[i]
  }

  ghost predicate DistinctPaths(pathHashes: seq<Hash>) {
    forall i, j :: 0 <= i < j < |pathHashes| ==> pathHashes[i] != pathHashes[j]
  }

  /** What a router must be given. */
  ghost predicate Acceptable(code: CodeMap, args: SiteArguments, index: Hash) {
    && args.SameLengths()
    && DistinctPaths(args.pathHashes)
    && (forall i :: 0 <= i < |args.pathHashes| ==> ResourceOk(code, args, i))
    && index in args.pathHashes
  }

  /** The router holds the first `n` declared resources and nothing else. */
  ghost predicate Holds(resources: map<Hash, Resource>, args: SiteArguments, n: nat)
    requires args.SameLengths() && n <= |args.pathHashes|
  {
    && (forall h :: h in resources ==> h in args.pathHashes[..n])
    && (forall i :: 0 <= i < n ==> args.pathHashes[i] in resources)
    && (forall i :: 0 <= i < n ==>
          resources[args.pathHashes[i]] == Resource(args.contentTypes[i], args.chunks[i], args.lengths[i]))
  }

  /** Resource `i` has the defect that `error` reports. */
  ghost predicate DefectAt(code: CodeMap, args: SiteArguments, i: nat, error: SiteError)
    requires args.SameLengths() && i < |args.pathHashes|
  {
    match error
    case DuplicatePath(h) => args.pathHashes[i] == h && h in args.pathHashes[..i]
    case EmptyResource(h) => args.pathHashes[i] == h && (args.lengths[i] == 0 || args.chunks[i] == [])
    case InvalidChunk(h, chunk) =>
      args.pathHashes[i] == h && chunk in args.chunks[i] && !(0 < PayloadSize(code, chunk) <= MAX_CHUNK_BYTES)
    case ResourceLengthMismatch(h, expected, actual) =>
      args.pathHashes[i] == h && args.lengths[i] == expected != actual && |ChunkBytes(code, args.chunks[i])| == actual
    case _ => false
  }

  /** The refusal names the first resource with a defect, and that defect. */
  ghost predicate Explains(code: CodeMap, args: SiteArguments, index: Hash, error: SiteError) {
    if error.ArrayLengthMismatch? then !args.SameLengths()
    else if error.MissingIndex? then index !in args.pathHashes
    else args.SameLengths() && exists i :: 0 <= i < |args.pathHashes| && DefectAt(code, args, i, error) && SoundBefore(code, args, i)
  }

  ghost predicate SoundBefore(code: CodeMap, args: SiteArguments, i: nat)
    requires args.SameLengths() && i <= |args.pathHashes|
  {
    DistinctPaths(args.pathHashes[..i]) && forall n :: 0 <= n < i ==> ResourceOk(code, args, n)
  }

  lemma DefectRefuses(code: CodeMap, args: SiteArguments, index: Hash, i: nat, error: SiteError)
    requires args.SameLengths() && i < |args.pathHashes| && DefectAt(code, args, i, error) && SoundBefore(code, args, i)
    ensures !Acceptable(code, args, index) && Explains(code, args, index, error)
  {
    hide ChunkBytes, PayloadSize, SoundBefore;
    match error {
      case DuplicatePath(h) =>
        var n :| 0 <= n < i && args.pathHashes[..i][n] == h;
        assert args.pathHashes[n] == args.pathHashes[i];
      case InvalidChunk(h, chunk) =>
        var j :| 0 <= j < |args.chunks[i]| && args.chunks[i][j] == chunk;
        assert !ChunksOk(code, args.chunks[i]);
        assert !ResourceOk(code, args, i);
      case EmptyResource(h) =>
        assert !ResourceOk(code, args, i);
      case ResourceLengthMismatch(h, expected, actual) =>
        assert !ResourceOk(code, args, i);
      case _ =>
    }
  }

  lemma HoldsNext(code: CodeMap, resources: map<Hash, Resource>, args: SiteArguments, i: nat)
    requires args.SameLengths() && i < |args.pathHashes| && Holds(resources, args, i)
    requires args.pathHashes[i] !in resources && ResourceOk(code, args, i) && SoundBefore(code, args, i)
    ensures Holds(resources[args.pathHashes[i] := Resource(args.contentTypes[i], args.chunks[i], args.lengths[i])], args, i + 1)
    ensures SoundBefore(code, args, i + 1)
  {
    hide ResourceOk, DistinctPaths, Holds;
    assert args.pathHashes[..i + 1] == args.pathHashes[..i] + [args.pathHashes[i]];
    HoldsMember(resources, args, i, args.pathHashes[i]);
    HoldsOneMore(resources, args, i);
    DistinctPathsGrow(args.pathHashes[..i], args.pathHashes[i]);
  }

  lemma HoldsOneMore(resources: map<Hash, Resource>, args: SiteArguments, i: nat)
    requires args.SameLengths() && i < |args.pathHashes| && Holds(resources, args, i)
    requires args.pathHashes[i] !in resources
    ensures Holds(resources[args.pathHashes[i] := Resource(args.contentTypes[i], args.chunks[i], args.lengths[i])], args, i + 1)
  {
    assert args.pathHashes[..i + 1] == args.pathHashes[..i] + [args.pathHashes[i]];
  }

  lemma DistinctPathsGrow(pathHashes: seq<Hash>, next: Hash)
    requires DistinctPaths(pathHashes) && next !in pathHashes
    ensures DistinctPaths(pathHashes + [next])
  {
  }

  lemma HoldsMember(resources: map<Hash, Resource>, args: SiteArguments, n: nat, h: Hash)
    requires args.SameLengths() && n <= |args.pathHashes| && Holds(resources, args, n)
    ensures h in resources <==> h in args.pathHashes[..n]
  {
    if h in args.pathHashes[..n] {
      var i :| 0 <= i < n && args.pathHashes[..n][i] == h;
      assert args.pathHashes[i] == h;
    }
  }

  /** The router's constructor: it succeeds on exactly the acceptable arguments. */
  method Construct(code: CodeMap, args: SiteArguments, index: Hash) returns (r: Result<Site, SiteError>)
    ensures r.Success? <==> Acceptable(code, args, index)
    ensures r.Success? ==> Holds(r.value.resources, args, |args.pathHashes|) && r.value.manifestHash == args.manifestHash
    ensures r.Failure? ==> Explains(code, args, index, r.error)
  {
    if !args.SameLengths() {
      return Failure(ArrayLengthMismatch);
    }
    hide ChunkBytes, PayloadSize, ChunksOk, Holds, Explains, SoundBefore, Acceptable;
    var resources: map<Hash, Resource> := map[];
    var i := 0;
    HoldsNothing(code, args);
    while i < |args.pathHashes|
      invariant 0 <= i <= |args.pathHashes| && Holds(resources, args, i) && SoundBefore(code, args, i)
    {
      var pathHash := args.pathHashes[i];
      HoldsMember(resources, args, i, pathHash);
      if pathHash in resources {
        DefectRefuses(code, args, index, i, DuplicatePath(pathHash));
        return Failure(DuplicatePath(pathHash));
      }
      if args.lengths[i] == 0 || args.chunks[i] == [] {
        DefectRefuses(code, args, index, i, EmptyResource(pathHash));
        return Failure(EmptyResource(pathHash));
      }
      var chunks, actualLength, invalid := GatherChunks(code, args.chunks[i]);
      if invalid.Some? {
        DefectRefuses(code, args, index, i, InvalidChunk(pathHash, invalid.value));
        return Failure(InvalidChunk(pathHash, invalid.value));
      }
      if actualLength != args.lengths[i] {
        DefectRefuses(code, args, index, i, ResourceLengthMismatch(pathHash, args.lengths[i], actualLength));
        return Failure(ResourceLengthMismatch(pathHash, args.lengths[i], actualLength));
      }
      HoldsNext(code, resources, args, i);
      resources := resources[pathHash := Resource(args.contentTypes[i], chunks, args.lengths[i])];
      i := i + 1;
    }
    HoldsMember(resources, args, i, index);
    IndexDecides(code, args, index);
    if index !in resources {
      return Failure(MissingIndex);
    }
    return Success(Site(resources, args.manifestHash));
  }

  lemma HoldsNothing(code: CodeMap, args: SiteArguments)
    requires args.SameLengths()
    ensures Holds(map[], args, 0) && SoundBefore(code, args, 0)
  {
  }

  lemma IndexDecides(code: CodeMap, args: SiteArguments, index: Hash)
    requires args.SameLengths() && SoundBefore(code, args, |args.pathHashes|)
    ensures index in args.pathHashes[..|args.pathHashes|] <==> Acceptable(code, args, index)
    ensures index !in args.pathHashes[..|args.pathHashes|] ==> Explains(code, args, index, MissingIndex)
  {
    hide ResourceOk;
    assert args.pathHashes[..|args.pathHashes|] == args.pathHashes;
  }

  /** The constructor's inner loop: records the chunks of one resource and adds up their sizes,
      stopping at the first chunk of a bad size. */
  method GatherChunks(code: CodeMap, chunks: seq<Address>)
    returns (stored: seq<Address>, actualLength: nat, invalid: Option<Address>)
    ensures invalid.None? <==> ChunksOk(code, chunks)
    ensures invalid.None? ==> stored == chunks && actualLength == |ChunkBytes(code, chunks)|
    ensures invalid.Some? ==> invalid.value in chunks && !(0 < PayloadSize(code, invalid.value) <= MAX_CHUNK_BYTES)
  {
    hide PayloadSize, ChunkBytes;
    NothingGathered(code, chunks);
    stored, actualLength, invalid := [], 0, None;
    var j := 0;
    while j < |chunks|
      invariant 0 <= j <= |chunks| && stored == chunks[..j] && invalid.None?
      invariant ChunksOk(code, chunks[..j]) && actualLength == |ChunkBytes(code, chunks[..j])|
    {
      var chunk := chunks[j];
      var chunkLength := PayloadSize(code, chunk);
      if chunkLength == 0 || chunkLength > MAX_CHUNK_BYTES {
        invalid := Some(chunk);
        return;
      }
      ChunkBytesPrefix(code, chunks, j);
      actualLength := actualLength + chunkLength;
      stored := stored + [chunk];
      j := j + 1;
    }
    assert chunks[..j] == chunks;
  }

  lemma NothingGathered(code: CodeMap, chunks: seq<Address>)
    ensures |ChunkBytes(code, chunks[..0])| == 0
  {
  }

  /** Chunk code taken as fixed, every stored resource is exactly as long as its chunks. */
  ghost predicate Intact(site: Site, code: CodeMap) {
    forall h :: h in site.resources ==> site.resources[h].length == |ChunkBytes(code, site.resources[h].chunks)|
  }

  lemma ConstructedSiteIsIntact(site: Site, code: CodeMap, args: SiteArguments, index: Hash)
    requires Acceptable(code, args, index) && Holds(site.resources, args, |args.pathHashes|)
    ensures Intact(site, code)
  {
    hide ChunkBytes, ChunksOk;
    forall h | h in site.resources
      ensures site.resources[h].length == |ChunkBytes(code, site.resources[h].chunks)|
    {
      assert h in args.pathHashes[..|args.pathHashes|];
      var i :| 0 <= i < |args.pathHashes| && args.pathHashes[i] == h;
      assert ResourceOk(code, args, i);
    }
  }

  datatype Header = Header(key: string, value: string)

  datatype Response = Response(statusCode: nat, body: seq<byte>, headers: seq<Header>)

  function Headers(contentType: string, immutableResource: bool): seq<Header> {
    [Header("Content-Type", contentType),
     Header("Cache-Control", if immutableResource then "public, max-age=31536000, immutable" else "no-store")]
  }

  const NOT_FOUND_BODY: seq<byte> := [0x6e, 0x6f, 0x74, 0x20, 0x66, 0x6f, 0x75, 0x6e, 0x64, 0x0a]

  ghost predicate IsNotFound(response: Response) {
    && response.statusCode == 404
    && |response.body| == 10 && (forall i :: 0 <= i < 10 ==> response.body[i] as int == "not found\n"[i] as int)
    && response.headers == [Header("Content-Type", "text/plain; charset=utf-8"), Header("Cache-Control", "no-store")]
  }

  /** The response carries these bytes, for caching forever. */
  ghost predicate Carries(response: Response, contentType: string, body: seq<byte>) {
    && response.statusCode == 200 && response.body == body
    && response.headers == [Header("Content-Type", contentType), Header("Cache-Control", "public, max-age=31536000, immutable")]
  }

  ghost predicate Answers(site: Site, code: CodeMap, pathHash: Hash, response: Response) {
    if pathHash in site.resources then
      Carries(response, site.resources[pathHash].contentType, ChunkBytes(code, site.resources[pathHash].chunks))
    else IsNotFound(response)
  }

  /** Serves a resource by copying its chunks into one buffer: the index file for a bare request, the
      file a single segment names, nothing for a longer path. Every copy stays inside the buffer, and
      together they fill it. */
  method Request(site: Site, code: CodeMap, hash: string -> Hash, resource: seq<string>) returns (response: Response)
    requires Intact(site, code)
    ensures |resource| == 0 ==> Answers(site, code, hash("index.html"), response)
    ensures |resource| == 1 ==> Answers(site, code, hash(resource[0]), response)
    ensures |resource| > 1 ==> IsNotFound(response)
  {
    var notFound := Response(404, NOT_FOUND_BODY, Headers("text/plain; charset=utf-8", false));
    var pathHash;
    if |resource| == 0 {
      pathHash := hash("index.html");
    } else if |resource| == 1 {
      pathHash := hash(resource[0]);
    } else {
      return notFound;
    }
    if pathHash !in site.resources {
      return notFound;
    }
    var selected := site.resources[pathHash];
    var data := new byte[selected.length](_ => 0);
    FillBuffer(code, selected.chunks, data);
    return Response(200, data[..], Headers(selected.contentType, true));
  }

  method FillBuffer(code: CodeMap, chunks: seq<Address>, data: array<byte>)
    requires data.Length == |ChunkBytes(code, chunks)|
    modifies data
    ensures data[..] == ChunkBytes(code, chunks)
  {
    hide Payload, PayloadSize;
    var offset := 0;
    var i := 0;
    while i < |chunks|
      invariant 0 <= i <= |chunks| && 0 <= offset <= data.Length
      invariant data[..offset] == ChunkBytes(code, chunks[..i])
    {
      ChunkBytesPrefix(code, chunks, i);
      Copy(code, chunks[i], data, offset);
      offset := offset + PayloadSize(code, chunks[i]);
      i := i + 1;
    }
    assert chunks[..i] == chunks;
    assert data[..] == data[..offset];
  }

  // ----- Split, store, reassemble -----

  datatype DeployError = Storage(storage: StorageError) | Router(router: SiteError)

  function PathHashes(hash: string -> Hash, paths: seq<string>): (r: seq<Hash>)
    ensures |r| == |paths|
  {
    seq(|paths|, i requires 0 <= i < |paths| => hash(paths[i]))
  }

  /** What the deployed site serves is what was on disk. */
  ghost predicate Serves(site: Site, code: CodeMap, hash: string -> Hash, paths: seq<string>, contentTypes: seq<string>, files: seq<seq<byte>>)
    requires |paths| == |files| == |contentTypes|
  {
    forall i :: 0 <= i < |paths| ==>
      && hash(paths[i]) in site.resources
      && ChunkBytes(code, site.resources[hash(paths[i])].chunks) == files[i]
      && site.resources[hash(paths[i])].contentType == contentTypes[i]
  }

  /** Deploys every file and then the router. Absent creation failures it succeeds exactly when
      the files are non-empty, the path hashes distinct and the index among them. */
  method DeploySite(world: World, hash: string -> Hash, paths: seq<string>, contentTypes: seq<string>, files: seq<seq<byte>>, manifestHash: Hash)
    returns (r: Result<Site, DeployError>)
    requires world.Valid()
    requires |paths| == |files| == |contentTypes|
    modifies world
    ensures world.Valid()
    ensures r.Success? ==> Serves(r.value, world.code, hash, paths, contentTypes, files) && Intact(r.value, world.code)
    ensures (forall n :: !world.refuses(n)) ==>
      (r.Success? <==> DistinctPaths(PathHashes(hash, paths)) && hash("index.html") in PathHashes(hash, paths)
                       && forall i :: 0 <= i < |files| ==> files[i] != [])
  {
    hide ChunkBytes, ChunksOk, Extends, Install, Intact, DistinctPaths, Acceptable, Serves, Holds;
    var chunks: seq<seq<Address>> := [];
    var i := 0;
    while i < |files|
      invariant 0 <= i <= |files| && |chunks| == i && world.Valid()
      invariant forall k :: 0 <= k < i ==> ChunksOk(world.code, chunks[k]) && ChunkBytes(world.code, chunks[k]) == files[k]
    {
      ghost var was := world.code;
      var deployed := world.DeployChunks(files[i]);
      if deployed.Failure? {
        return Failure(Storage(deployed.error));
      }
      forall k | 0 <= k < i
        ensures ChunksOk(world.code, chunks[k]) && ChunkBytes(world.code, chunks[k]) == files[k]
      {
        ChunkBytesStable(was, world.code, chunks[k]);
      }
      chunks := chunks + [deployed.value];
      i := i + 1;
    }
    var args := SiteArguments(PathHashes(hash, paths), contentTypes, chunks, seq(|files|, k requires 0 <= k < |files| => |files[k]|), manifestHash);
    DeployedIsAcceptable(world.code, args, hash("index.html"), files);
    var built := Construct(world.code, args, hash("index.html"));
    if built.Failure? {
      return Failure(Router(built.error));
    }
    ConstructedSiteIsIntact(built.value, world.code, args, hash("index.html"));
    ConstructedSiteServes(built.value, world.code, hash, paths, args, files);
    return Success(built.value);
  }

  lemma {:induction false} NoBytesNoChunks(code: CodeMap, chunks: seq<Address>)
    requires ChunksOk(code, chunks)
    ensures ChunkBytes(code, chunks) == [] <==> chunks == []
  {
    if chunks != [] {
      assert 0 < PayloadSize(code, chunks[|chunks| - 1]);
    }
  }

  lemma DeployedIsAcceptable(code: CodeMap, args: SiteArguments, index: Hash, files: seq<seq<byte>>)
    requires |args.pathHashes| == |files| && |args.contentTypes| == |files| && |args.chunks| == |files| && |args.lengths| == |files|
    requires forall k :: 0 <= k < |files| ==>
      ChunksOk(code, args.chunks[k]) && ChunkBytes(code, args.chunks[k]) == files[k] && args.lengths[k] == |files[k]|
    ensures Acceptable(code, args, index) <==>
      DistinctPaths(args.pathHashes) && index in args.pathHashes && forall i :: 0 <= i < |files| ==> files[i] != []
  {
    hide ChunkBytes, ChunksOk, DistinctPaths;
    forall k | 0 <= k < |files|
      ensures args.SameLengths() && (ResourceOk(code, args, k) <==> files[k] != [])
    {
      NoBytesNoChunks(code, args.chunks[k]);
    }
    if Acceptable(code, args, index) {
      forall k | 0 <= k < |files|
        ensures files[k] != []
      {
        assert ResourceOk(code, args, k);
      }
    }
  }

  lemma ConstructedSiteServes(site: Site, code: CodeMap, hash: string -> Hash, paths: seq<string>, args: SiteArguments, files: seq<seq<byte>>)
    requires args.SameLengths() && |paths| == |files| == |args.contentTypes| && args.pathHashes == PathHashes(hash, paths)
    requires Holds(site.resources, args, |paths|)
    requires forall k :: 0 <= k < |files| ==> ChunkBytes(code, args.chunks[k]) == files[k]
    ensures Serves(site, code, hash, paths, args.contentTypes, files)
  {
    hide ChunkBytes;
    forall i | 0 <= i < |paths|
      ensures hash(paths[i]) in site.resources && ChunkBytes(code, site.resources[hash(paths[i])].chunks) == files[i]
              && site.resources[hash(paths[i])].contentType == args.contentTypes[i]
    {
      assert args.pathHashes[i] == hash(paths[i]);
    }
  }

  /** End to end: what is deployed is what is served, byte for byte, and the bare request serves the
      index file. */
  method RoundTrip(site: Site, code: CodeMap, hash: string -> Hash, paths: seq<string>, contentTypes: seq<string>, files: seq<seq<byte>>, i: nat)
    returns (response: Response, bare: Response)
    requires |paths| == |files| == |contentTypes| && i < |paths|
    requires Intact(site, code) && Serves(site, code, hash, paths, contentTypes, files)
    ensures Carries(response, contentTypes[i], files[i])
    ensures paths[i] == "index.html" ==> bare == response
  {
    hide ChunkBytes;
    response := Request(site, code, hash, [paths[i]]);
    bare := Request(site, code, hash, []);
  }
}
