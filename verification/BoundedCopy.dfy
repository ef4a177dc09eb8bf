/**
 * `copyBoundedAndFlush`: the bounded copy of an upstream response. The reader follows a finite
 * script of chunks, each optionally ending in an error; the writer may accept part of a write
 * or fail. Both obey the Go interfaces and are otherwise arbitrary.
 */
module BoundedCopy {
  import opened Basics

  newtype Byte = x: int | 0 <= x < 256

  datatype ReadError = EndOfFile | ReadFailed

  /** Bytes that become available together, and the error reported with the last of them. */
  datatype Chunk = Chunk(data: seq<Byte>, error: Option<ReadError>)

  datatype Outcome = Nil | ResponseLimit | ReadFailure | WriteFailure | ShortWrite

  const BUFFER := 32768

  /** The bytes a script delivers before its first error. */
  function Source(script: seq<Chunk>): seq<Byte> {
    if script == [] then []
    else script[0].data + (if script[0].error.Some? then [] else Source(script[1..]))
  }

  /** The error that ends a script; a reader with nothing left reports end of file. */
  function Final(script: seq<Chunk>): ReadError {
    if script == [] then EndOfFile
    else if script[0].error.Some? then script[0].error.value
    else Final(script[1..])
  }

  function Take(source: seq<Byte>, limit: int): seq<Byte> {
    if |source| <= limit then source else if limit <= 0 then [] else source[..limit]
  }

  /** The result against a writer that keeps up. */
  function Expected(source: seq<Byte>, final: ReadError, limit: int): Outcome {
    if limit <= 0 || |source| > limit then ResponseLimit
    else if final == EndOfFile then Nil
    else ReadFailure
  }

  function Volume(script: seq<Chunk>): nat {
    if script == [] then 0 else 1 + |script[0].data| + Volume(script[1..])
  }

  class Reader {
    var script: seq<Chunk>

    constructor (script: seq<Chunk>)
      ensures this.script == script
    {
      this.script := script;
    }

    /** `Read` with a buffer of `size` bytes. After an error nothing more is delivered. */
    method Read(size: nat) returns (data: seq<Byte>, error: Option<ReadError>)
      requires size > 0
      modifies this
      ensures |data| <= size
      ensures data + Source(script) == old(Source(script)) && Final(script) == old(Final(script))
      ensures error.Some? ==> Source(script) == [] && error.value == Final(script)
      ensures error.None? ==> Volume(script) < old(Volume(script))
    {
      if script == [] {
        return [], Some(EndOfFile);
      }
      var chunk := script[0];
      if |chunk.data| > size {
        data, error := chunk.data[..size], None;
        script := [Chunk(chunk.data[size..], chunk.error)] + script[1..];
        assert script[1..] == old(script)[1..];
        assert chunk.data[..size] + chunk.data[size..] == chunk.data;
        return;
      }
      data, error := chunk.data, chunk.error;
      script := if error.Some? then [Chunk([], error)] else script[1..];
    }
  }

  /** How a write goes: at most `accept` bytes are taken, and the call may report an error. */
  datatype Verdict = Verdict(accept: nat, fails: bool)

  class Writer {
    var out: seq<Byte>
    var verdicts: seq<Verdict>

    constructor (verdicts: seq<Verdict>)
      ensures out == [] && this.verdicts == verdicts
    {
      out, this.verdicts := [], verdicts;
    }

    /** Without verdicts every write succeeds in full. */
    method Write(data: seq<Byte>) returns (written: nat, failed: bool)
      modifies this
      ensures written <= |data| && out == old(out) + data[..written]
      ensures old(verdicts) == [] ==> written == |data| && !failed && verdicts == []
    {
      if verdicts == [] {
        written, failed := |data|, false;
      } else {
        written, failed := Min(verdicts[0].accept, |data|), verdicts[0].fails;
        verdicts := verdicts[1..];
      }
      out := out + data[..written];
    }
  }

  lemma Regroup(a: seq<Byte>, b: seq<Byte>, c: seq<Byte>)
    ensures a + b + c == a + (b + c)
  {
  }

  lemma Moved(copied: seq<Byte>, data: seq<Byte>, rest: seq<Byte>, source: seq<Byte>, written: nat)
    requires copied + (data + rest) == source && written <= |data|
    ensures copied + data[..written] + (data[written..] + rest) == source
  {
    assert data == data[..written] + data[written..];
  }

  /** The output is a prefix of the source within the limit, and nil means all of it. Against
      a writer that keeps up the copy is exactly `Take(limit)`, and the limit error arises
      exactly when the limit is non-positive or the source is longer than the limit. */
  ghost predicate Refines(
      source: seq<Byte>, final: ReadError, limit: int, keepsUp: bool, copied: seq<Byte>, r: Outcome) {
    && copied <= source && |copied| <= Max(limit, 0)
    && (r == Nil ==> copied == source && final == EndOfFile)
    && (r == ResponseLimit ==> limit <= 0 || |source| > limit)
    && (keepsUp ==> r == Expected(source, final, limit) && copied == Take(source, limit))
  }

  /** The loop ends at the end of the source, past the limit, or at a failed write. */
  lemma EndsWell(source: seq<Byte>, final: ReadError, limit: int, copied: seq<Byte>, rest: seq<Byte>)
    requires copied + rest == source && |copied| <= limit && limit > 0
    ensures rest == [] && final == EndOfFile ==> Refines(source, final, limit, true, copied, Nil)
    ensures rest == [] && final != EndOfFile ==> Refines(source, final, limit, true, copied, ReadFailure)
    ensures rest != [] && |copied| == limit ==> Refines(source, final, limit, true, copied, ResponseLimit)
    ensures Refines(source, final, limit, false, copied, WriteFailure)
            && Refines(source, final, limit, false, copied, ShortWrite)
  {
    if rest != [] && |copied| == limit { assert source[..limit] == copied; }
  }

  /** For every script and every writer; `copied` is what reached the writer. */
  method CopyBoundedAndFlush(dst: Writer, src: Reader, limit: int) returns (r: Outcome, ghost copied: seq<Byte>)
    modifies dst, src
    ensures dst.out == old(dst.out) + copied
    ensures Refines(old(Source(src.script)), old(Final(src.script)), limit, old(dst.verdicts) == [], copied, r)
  {
    copied := [];
    if limit <= 0 { return ResponseLimit, []; }
    ghost var source, final := Source(src.script), Final(src.script);
    var remaining := limit;
    while true
      invariant dst.out == old(dst.out) + copied && copied + Source(src.script) == source
      invariant Final(src.script) == final && 0 <= remaining == limit - |copied|
      invariant old(dst.verdicts) == [] ==> dst.verdicts == []
      decreases Volume(src.script)
    {
      EndsWell(source, final, limit, copied, Source(src.script));
      if remaining == 0 {
        var probe, error := src.Read(1);
        if |probe| > 0 { return ResponseLimit, copied; }
        assert probe + Source(src.script) == Source(src.script);
        if error == Some(EndOfFile) { return Nil, copied; }
        if error.Some? { return ReadFailure, copied; }
        continue;
      }
      var data, error := src.Read(Min(BUFFER, remaining));
      ghost var rest := Source(src.script);
      if |data| > 0 {
        var written, failed := dst.Write(data);
        remaining := remaining - written;
        Moved(copied, data, rest, source, written);
        Regroup(old(dst.out), copied, data[..written]);
        copied := copied + data[..written];
        EndsWell(source, final, limit, copied, data[written..] + rest);
        if failed { return WriteFailure, copied; }
        if written != |data| { return ShortWrite, copied; }
        assert data[written..] + rest == rest;
      } else {
        assert data + rest == rest;
      }
      if error == Some(EndOfFile) { return Nil, copied; }
      if error.Some? { return ReadFailure, copied; }
    }
  }
}
