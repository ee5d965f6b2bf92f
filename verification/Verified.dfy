/** Reading a blob back (VerifiedReader in crates/store/src/verified.rs). */
module Verified {
  import opened Wrappers
  import opened Framing
  import Durability
  import Tables

  /** `given` is what was read so far; the hash is taken over it. */
  datatype Reader = Reader(given: seq<Byte>, verified: bool, failed: bool)

  const OPENED := Reader([], false, false)

  datatype Expected = Expected(size: nat, hash: string)

  /** One `read` with room for data; `chunk` is what the file gives, empty at its end. */
  function Read(r: Reader, chunk: seq<Byte>, e: Expected, sha: seq<Byte> -> string): (Reader, Result<seq<Byte>, ()>) {
    if r.verified then (r, Ok([]))
    else if r.failed then (r, Err(()))
    else
      var given := r.given + chunk;
      if |given| > e.size || (chunk == [] && (|given| != e.size || sha(given) != e.hash))
      then (Reader(given, false, true), Err(()))
      else (Reader(given, chunk == [], false), Ok(chunk))
  }

  function After(chunks: seq<seq<Byte>>, e: Expected, sha: seq<Byte> -> string): Reader {
    if chunks == [] then OPENED else Read(After(chunks[..|chunks| - 1], e, sha), chunks[|chunks| - 1], e, sha).0
  }

  class VerifiedReader {
    var given: seq<Byte>
    var verified: bool
    var failed: bool
    const expected: Expected
    const sha: seq<Byte> -> string

    ghost function View(): Reader
      reads this
    {
      Reader(given, verified, failed)
    }

    constructor (expected: Expected, sha: seq<Byte> -> string)
      ensures View() == OPENED && this.expected == expected && this.sha == sha
    {
      given, verified, failed := [], false, false;
      this.expected, this.sha := expected, sha;
    }

    method ReadChunk(chunk: seq<Byte>) returns (r: Result<seq<Byte>, ()>)
      modifies this
      ensures (View(), r) == Read(old(View()), chunk, expected, sha)
    {
      if verified {
        return Ok([]);
      }
      if failed {
        return Err(());
      }
      given := given + chunk;
      if |given| > expected.size || (chunk == [] && (|given| != expected.size || sha(given) != expected.hash)) {
        failed := true;
        return Err(());
      }
      verified := chunk == [];
      return Ok(chunk);
    }
  }

  /** The reads of an undamaged file: pieces of its content, then the end. */
  predicate ReadsOf(content: seq<Byte>, chunks: seq<seq<Byte>>) {
    Flatten(chunks) == content && forall i :: 0 <= i < |chunks| ==> chunks[i] != []
  }

  /** End of file is reported only for exactly the recorded bytes; a failure is final. */
  lemma {:induction false} EndMeansVerified(chunks: seq<seq<Byte>>, e: Expected, sha: seq<Byte> -> string)
    ensures var r := After(chunks, e, sha);
            && (r.verified ==> |r.given| == e.size && sha(r.given) == e.hash)
            && r.given <= Flatten(chunks) && (r.verified ==> !r.failed)
            && (!r.failed ==> |r.given| <= e.size)
            && (!r.failed && !r.verified ==> r.given == Flatten(chunks))
  {
    if chunks != [] {
      var n := |chunks| - 1;
      EndMeansVerified(chunks[..n], e, sha);
    }
  }

  lemma {:induction false} GoodReads(chunks: seq<seq<Byte>>, e: Expected, sha: seq<Byte> -> string)
    requires |Flatten(chunks)| <= e.size && forall i :: 0 <= i < |chunks| ==> chunks[i] != []
    ensures After(chunks, e, sha) == Reader(Flatten(chunks), false, false)
  {
    if chunks != [] {
      GoodReads(chunks[..|chunks| - 1], e, sha);
    }
  }

  /** The reader accepts a file exactly when it has the recorded length and hash, however it is read. */
  lemma AcceptsExactly(content: seq<Byte>, chunks: seq<seq<Byte>>, e: Expected, sha: seq<Byte> -> string)
    requires ReadsOf(content, chunks)
    ensures After(chunks + [[]], e, sha).verified <==> |content| == e.size && sha(content) == e.hash
  {
    assert (chunks + [[]])[..|chunks|] == chunks;
    assert content + [] == content;
    EndMeansVerified(chunks, e, sha);
    if |content| <= e.size {
      GoodReads(chunks, e, sha);
    } else {
      LongReads(chunks, e, sha);
    }
  }

  lemma {:induction false} LongReads(chunks: seq<seq<Byte>>, e: Expected, sha: seq<Byte> -> string)
    requires |Flatten(chunks)| > e.size && forall i :: 0 <= i < |chunks| ==> chunks[i] != []
    ensures After(chunks, e, sha).failed
  {
    var n := |chunks| - 1;
    if |Flatten(chunks[..n])| > e.size {
      LongReads(chunks[..n], e, sha);
      EndMeansVerified(chunks[..n], e, sha);
    } else {
      GoodReads(chunks[..n], e, sha);
    }
  }

  /** Every committed blob reads back verified, in any run with any crashes. */
  lemma CommittedBlobsVerify(steps: seq<Durability.Step>, o: Durability.Options, sha: seq<Byte> -> string,
                             id: Tables.Id, chunks: seq<seq<Byte>>)
    requires o.sizes.Valid() && id in Durability.Run(steps, o, sha).rows
             && id in Durability.Run(steps, o, sha).disk.data
    requires ReadsOf(Durability.Run(steps, o, sha).disk.data[id], chunks)
    ensures var row := Durability.Run(steps, o, sha).rows[id];
            After(chunks + [[]], Expected(row.size, row.hash), sha).verified
  {
    Durability.RowsNameDurableFiles(steps, o, sha, id);
    var row := Durability.Run(steps, o, sha).rows[id];
    AcceptsExactly(Durability.Run(steps, o, sha).disk.data[id], chunks, Expected(row.size, row.hash), sha);
  }
}
