/** Writing and loading tensors through a seekable byte stream. */
module TensorStream {

  import opened TensorFile

  /** `bs` over the bytes from `pos` on. */
  function Overwrite(bytes: seq<Byte>, pos: nat, bs: seq<Byte>): seq<Byte>
    requires pos <= |bytes|
  {
    if pos + |bs| <= |bytes| then bytes[..pos] + bs + bytes[pos + |bs|..] else bytes[..pos] + bs
  }

  /** What the first read at a position says about the search from there. */
  lemma ReadDecides(bytes: seq<Byte>, pos: nat, name: nat, size: nat, seen: set<nat>)
    requires forall p :: p in seen ==> p < |bytes|
    ensures var bs, r := ReadAt(bytes, pos, 32), Scan(bytes, Entries(bytes), pos, name, size, seen);
            && (bs == [] ==> r == NotFound)
            && (0 < |bs| < 32 ==> r == BadEntry)
            && (|bs| == 32 && r != Diverges ==>
                  pos < |bytes| && pos !in seen && pos in Entries(bytes) && Entries(bytes)[pos] == EntryOf(bs))
  {
  }

  /** What a full entry says. */
  lemma EntryDecides(bytes: seq<Byte>, entries: map<nat, Entry>, pos: nat, e: Entry, name: nat, size: nat,
                     seen: set<nat>)
    requires (forall p :: p in seen ==> p < |bytes|) && pos < |bytes| && pos !in seen
    requires pos in entries && entries[pos] == e
    ensures Scan(bytes, entries, pos, name, size, seen) ==
            if e.name != name then Scan(bytes, entries, e.offset, name, size, seen + {pos})
            else if e.length != size then WrongSize
            else if |ReadAt(bytes, pos + 32, size)| == size then Found(ReadAt(bytes, pos + 32, size))
            else BadData
  {
  }

  lemma Append(bytes: seq<Byte>, bs: seq<Byte>)
    ensures Overwrite(bytes, |bytes|, bs) == bytes + bs
  {
  }

  /** The search has come to position `at` on its way to the result `goal`. */
  ghost predicate Searching(bytes: seq<Byte>, at: nat, name: nat, size: nat, seen: set<nat>, goal: Result) {
    && (forall p :: p in seen ==> p < |bytes|)
    && Scan(bytes, Entries(bytes), at, name, size, seen) == goal != Diverges
  }

  lemma SearchStep(bytes: seq<Byte>, at: nat, bs: seq<Byte>, name: nat, size: nat, seen: set<nat>, goal: Result)
    requires Searching(bytes, at, name, size, seen, goal) && bs == ReadAt(bytes, at, 32)
    ensures bs == [] ==> goal == NotFound
    ensures 0 < |bs| < 32 ==> goal == BadEntry
    ensures |bs| == 32 && EntryOf(bs).name == name ==> goal == DataResult(bytes, at + 32, EntryOf(bs).length, size)
    ensures |bs| == 32 && EntryOf(bs).name != name ==>
              Searching(bytes, EntryOf(bs).offset, name, size, seen + {at}, goal) &&
              |seen| < |seen + {at}| <= |bytes|
  {
    ReadDecides(bytes, at, name, size, seen);
    if |bs| == 32 {
      EntryDecides(bytes, Entries(bytes), at, EntryOf(bs), name, size, seen);
      SeenBound(seen + {at}, |bytes|);
    }
  }

  /** The data of a matching entry. */
  function DataResult(bytes: seq<Byte>, pos: nat, length: nat, size: nat): Result {
    if length != size then WrongSize
    else if |ReadAt(bytes, pos, size)| == size then Found(ReadAt(bytes, pos, size))
    else BadData
  }

  class Stream {
    var bytes: seq<Byte>
    var pos: nat

    constructor ()
      ensures bytes == [] && pos == 0
    {
      bytes, pos := [], 0;
    }

    method Seek(offset: nat)
      modifies this`pos
      ensures pos == offset
    {
      pos := offset;
    }

    method Read(n: nat) returns (bs: seq<Byte>)
      modifies this`pos
      ensures bs == ReadAt(bytes, old(pos), n) && pos == old(pos) + |bs|
    {
      bs := ReadAt(bytes, pos, n);
      pos := pos + |bs|;
    }

    method Write(bs: seq<Byte>)
      requires pos <= |bytes|
      modifies this
      ensures bytes == Overwrite(old(bytes), old(pos), bs) && pos == old(pos) + |bs|
    {
      bytes := Overwrite(bytes, pos, bs);
      pos := pos + |bs|;
    }

    method WriteHeader()
      modifies this
      ensures bytes == Overwrite(old(bytes), 0, HeaderBytes()) && pos == 12
    {
      Seek(0);
      Write(HeaderBytes());
    }

    /** Appends a tensor. A shape that does not fit the entry is refused, and nothing is written. */
    method WriteTensor(t: Tensor) returns (ok: bool)
      requires pos == |bytes| && |t.data| == ByteSize(t)
      modifies this
      ensures ok == ShapeOk(t) && pos == |bytes|
      ensures bytes == if ok then old(bytes) + Record(t, |old(bytes)|) else old(bytes)
    {
      ok := ShapeOk(t);
      if ok {
        var entry := EntryBytes(EntryAt(t, pos));
        Append(bytes, entry);
        Append(bytes + entry, t.data);
        Write(entry);
        Write(t.data);
      }
    }

    /** Writes a whole file; it is what `File` says. */
    method WriteAll(ts: seq<Tensor>)
      requires bytes == [] && forall i :: 0 <= i < |ts| ==> TensorOk(ts[i])
      modifies this
      ensures bytes == File(ts, |ts|)
    {
      WriteHeader();
      for i := 0 to |ts|
        invariant bytes == File(ts, i) && pos == |bytes|
      {
        var _ := WriteTensor(ts[i]);
      }
    }

    /** Loads a tensor, in any file in which the search ends. */
    method LoadTensor(name: nat, size: nat) returns (r: Result)
      requires Load(bytes, name, size) != Diverges
      modifies this`pos
      ensures r == Load(bytes, name, size)
    {
      Seek(0);
      var header := Read(12);
      if header != HeaderBytes() {
        return BadVersion;
      }
      ghost var at: nat, seen: set<nat> := 12, {};
      ghost var goal := Load(bytes, name, size);
      var bs := Read(32);
      while bs != []
        invariant bs == ReadAt(bytes, at, 32) && pos == at + |bs|
        invariant Searching(bytes, at, name, size, seen, goal)
        decreases |bytes| - |seen|
      {
        SearchStep(bytes, at, bs, name, size, seen, goal);
        if |bs| != 32 {
          return BadEntry;
        }
        var e := EntryOf(bs);
        if e.name == name {
          r := LoadData(e, size);
          return;
        }
        at, seen := e.offset, seen + {at};
        Seek(e.offset);
        bs := Read(32);
      }
      SearchStep(bytes, at, bs, name, size, seen, goal);
      r := NotFound;
    }

    method LoadData(e: Entry, size: nat) returns (r: Result)
      modifies this`pos
      ensures r == DataResult(bytes, old(pos), e.length, size)
    {
      if e.length != size {
        return WrongSize;
      }
      var data := Read(e.length);
      r := if |data| == e.length then Found(data) else BadData;
    }
  }
}
