/**
 * The small part of Ruby's IO that the encoding orchestrator relies on:
 * a byte string that may be `nil`, and a `File` with a read position
 * (`tell`, `read(length)`, `seek(offset)`).
 */
module RubyIO {

  /** The value handed to a detector: a Ruby String of bytes, or `nil`. */
  datatype Data = NilData | Bytes(bytes: seq<bv8>)

  function Min(a: nat, b: nat): nat { if a <= b then a else b }

  /**
   * What `read(n)` returns on a file holding `content` whose position is `pos`:
   * `read(0)` is the empty string, a positive read at or past the end is `nil`,
   * and otherwise up to `n` bytes starting at `pos`.
   */
  function ReadResult(content: seq<bv8>, pos: nat, n: nat): (r: Data)
    ensures n == 0 ==> r == Bytes([])
    ensures n > 0 && pos >= |content| ==> r == NilData
    ensures n > 0 && pos < |content| ==>
      && r.Bytes?
      && 0 < |r.bytes| <= n
      && pos + |r.bytes| <= |content|
      && r.bytes == content[pos..pos + |r.bytes|]
      && (|r.bytes| < n ==> pos + |r.bytes| == |content|)
  {
    if n == 0 then Bytes([])
    else if pos >= |content| then NilData
    else Bytes(content[pos..Min(pos + n, |content|)])
  }

  /** A regular file opened for reading: fixed content and a movable position. */
  class File {
    const content: seq<bv8>
    var pos: nat

    constructor (content: seq<bv8>, pos: nat)
      ensures this.content == content && this.pos == pos
    {
      this.content := content;
      this.pos := pos;
    }

    /** `tell`: the current position. */
    method Tell() returns (p: nat)
      ensures p == pos
    {
      p := pos;
    }

    /** `read(n)`: the bytes read, and the position moved past them. */
    method Read(n: nat) returns (d: Data)
      modifies this
      ensures d == ReadResult(content, old(pos), n)
      ensures pos == if d.Bytes? then old(pos) + |d.bytes| else old(pos)
    {
      d := ReadResult(content, pos, n);
      if d.Bytes? {
        pos := pos + |d.bytes|;
      }
    }

    /** `seek(offset)`: an absolute move of the position (past the end is allowed). */
    method Seek(offset: nat)
      modifies this
      ensures pos == offset
    {
      pos := offset;
    }
  }
}
