/** Assembly of a child process's output: the part of execPipe that runs once the child has exited. */
module Pipe {
  import opened Types

  /** What the child wrote on stdout and stderr, chunk by chunk in arrival order, and its exit code. */
  datatype ChildRun = ChildRun(stdout: seq<Bytes>, stderr: seq<Bytes>, code: int)

  /** The chunks joined in arrival order. */
  function Concat(chunks: seq<Bytes>): Bytes
  {
    if chunks == [] then [] else Concat(chunks[..|chunks| - 1]) + chunks[|chunks| - 1]
  }

  /** The sum of the chunk lengths: the `size` counter the stdout listener keeps. */
  function Size(chunks: seq<Bytes>): nat
  {
    if chunks == [] then 0 else Size(chunks[..|chunks| - 1]) + |chunks[|chunks| - 1]|
  }

  /** What the exit listener hands to the callback: the joined stderr text as an error when
      the code is positive, the joined stdout otherwise. */
  function PipeResult(run: ChildRun): Result<Bytes>
  {
    if run.code > 0 then Err(Failure(Concat(run.stderr))) else Ok(Concat(run.stdout))
  }

  /** The preallocated buffer of `size` bytes is exactly filled by the chunks. */
  lemma {:induction false} ConcatLength(chunks: seq<Bytes>)
    ensures |Concat(chunks)| == Size(chunks)
  {
    if chunks != [] {
      ConcatLength(chunks[..|chunks| - 1]);
    }
  }

  /** How the output is split into chunks does not matter: joining is associative over the split. */
  lemma {:induction false} ConcatAppend(a: seq<Bytes>, b: seq<Bytes>)
    ensures Concat(a + b) == Concat(a) + Concat(b)
  {
    if b == [] {
      assert a + b == a;
    } else {
      var ab := a + b;
      assert ab[..|ab| - 1] == a + b[..|b| - 1] && ab[|ab| - 1] == b[|b| - 1];
      ConcatAppend(a, b[..|b| - 1]);
      assert Concat(ab) == Concat(a + b[..|b| - 1]) + b[|b| - 1];
    }
  }

  /** The bytes of the first i chunks never exceed the total. */
  lemma {:induction false} SizePrefix(chunks: seq<Bytes>, i: nat)
    requires i <= |chunks|
    ensures Size(chunks[..i]) <= Size(chunks)
    decreases |chunks| - i
  {
    if i < |chunks| {
      SizePrefix(chunks, i + 1);
      assert chunks[..i + 1][..i] == chunks[..i];
    } else {
      assert chunks[..i] == chunks;
    }
  }

  /** chunk.copy(buffer, start): the chunk overwrites buffer[start..start + |chunk|]; the bytes before
      and after it are unchanged. */
  method CopyInto(chunk: Bytes, buffer: array<char>, start: nat)
    requires start + |chunk| <= buffer.Length
    modifies buffer
    ensures buffer[..start] == old(buffer[..start])
    ensures buffer[start..start + |chunk|] == chunk
    ensures buffer[start + |chunk|..] == old(buffer[start + |chunk|..])
  {
    var j := 0;
    while j < |chunk|
      invariant 0 <= j <= |chunk|
      invariant buffer[..start] == old(buffer[..start])
      invariant buffer[start..start + j] == chunk[..j]
      invariant buffer[start + |chunk|..] == old(buffer[start + |chunk|..])
    {
      buffer[start + j] := chunk[j];
      j := j + 1;
    }
  }

  /** The stdout listener's running total: `size += data.length` for each chunk. */
  method TotalSize(chunks: seq<Bytes>) returns (size: nat)
    ensures size == Size(chunks)
  {
    size := 0;
    var i := 0;
    while i < |chunks|
      invariant 0 <= i <= |chunks|
      invariant size == Size(chunks[..i])
    {
      assert chunks[..i + 1][..i] == chunks[..i];
      size := size + |chunks[i]|;
      i := i + 1;
    }
    assert chunks[..i] == chunks;
  }

  /** execPipe once the child has exited: either fail with the stderr text or copy the stdout
      chunks one after another into a buffer of the total size. */
  method ExecPipe(run: ChildRun) returns (r: Result<Bytes>)
    ensures r == PipeResult(run)
    ensures r.Ok? ==> |r.value| == Size(run.stdout)
  {
    var size := TotalSize(run.stdout);
    if run.code > 0 {
      return Err(Failure(Concat(run.stderr)));
    }
    var buffer := new char[size];
    var start := 0;
    var i := 0;
    while i < |run.stdout|
      invariant 0 <= i <= |run.stdout|
      invariant start == Size(run.stdout[..i]) <= size
      invariant buffer[..start] == Concat(run.stdout[..i])
    {
      var chunk := run.stdout[i];
      assert run.stdout[..i + 1][..i] == run.stdout[..i];
      SizePrefix(run.stdout, i + 1);
      CopyInto(chunk, buffer, start);
      assert buffer[..start + |chunk|] == buffer[..start] + buffer[start..start + |chunk|];
      start := start + |chunk|;
      i := i + 1;
    }
    assert run.stdout[..i] == run.stdout;
    assert buffer[..] == buffer[..start];
    ConcatLength(run.stdout);
    r := Ok(buffer[..]);
  }
}
