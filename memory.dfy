/**
 * Main memory: a flat, bounds-checked store of bytes. Its Python class is not part
 * of this model; what the cache and the CPU rely on is that `read(addr, n)` gives
 * exactly `n` bytes and `write(addr, bytes)` overwrites exactly `|bytes|` bytes,
 * and that both fail on a span outside [0, capacity).
 */
module MainMemory {
  import opened Common

  predicate InBounds(size: nat, addr: int, n: nat) {
    0 <= addr && addr + n <= size
  }

  /** The `n` bytes at `addr`, or OutOfBounds. */
  function Load(mem: seq<Byte>, addr: int, n: nat): (r: Result<seq<Byte>>)
    ensures r.Ok? <==> InBounds(|mem|, addr, n)
    ensures r.Err? ==> r.fault == OutOfBounds
    ensures r.Ok? ==> |r.value| == n && forall i | 0 <= i < n :: r.value[i] == mem[addr + i]
  {
    if InBounds(|mem|, addr, n) then Ok(mem[addr..addr + n]) else Err(OutOfBounds)
  }

  /** `mem` with `data` written at `addr`, or OutOfBounds. */
  function Store(mem: seq<Byte>, addr: int, data: seq<Byte>): (r: Result<seq<Byte>>)
    ensures r.Ok? <==> InBounds(|mem|, addr, |data|)
    ensures r.Err? ==> r.fault == OutOfBounds
    ensures r.Ok? ==> |r.value| == |mem|
    ensures r.Ok? ==>
              forall k | 0 <= k < |mem| :: r.value[k] == if addr <= k < addr + |data| then data[k - addr] else mem[k]
  {
    if InBounds(|mem|, addr, |data|) then Ok(Splice(mem, addr, data)) else Err(OutOfBounds)
  }

  /** A load of the span just stored returns the stored bytes. */
  lemma LoadAfterStore(mem: seq<Byte>, addr: int, data: seq<Byte>)
    requires Store(mem, addr, data).Ok?
    ensures Load(Store(mem, addr, data).value, addr, |data|) == Ok(data)
  {
    var m' := Store(mem, addr, data).value;
    var r := Load(m', addr, |data|);
    assert r.value == data by {
      forall i | 0 <= i < |data| ensures r.value[i] == data[i] {
        assert r.value[i] == m'[addr + i];
      }
    }
  }

  /** A store leaves every span it does not overlap as it was. */
  lemma LoadAfterDisjointStore(mem: seq<Byte>, addr: int, data: seq<Byte>, a: int, n: nat)
    requires Store(mem, addr, data).Ok?
    requires a + n <= addr || addr + |data| <= a
    ensures Load(Store(mem, addr, data).value, a, n) == Load(mem, a, n)
  {
    var m' := Store(mem, addr, data).value;
    if InBounds(|mem|, a, n) {
      var r, r' := Load(m', a, n).value, Load(mem, a, n).value;
      assert r == r' by {
        forall i | 0 <= i < n ensures r[i] == r'[i] {
          assert r[i] == m'[a + i];
        }
      }
    }
  }

  /** The main-memory object that the cache and the CPU hold a reference to. */
  class Memory {
    var contents: seq<Byte>

    constructor (init: seq<Byte>)
      ensures contents == init
    {
      contents := init;
    }

    /** `read(addr, n)`: changes nothing. */
    method Read(addr: int, n: nat) returns (r: Result<seq<Byte>>)
      ensures r == Load(contents, addr, n)
    {
      if 0 <= addr && addr + n <= |contents| {
        r := Ok(contents[addr..addr + n]);
      } else {
        r := Err(OutOfBounds);
      }
    }

    /** `write(addr, data)`: on success the contents are those Store computes, on failure unchanged. */
    method Write(addr: int, data: seq<Byte>) returns (r: Result<()>)
      modifies this
      ensures r.Ok? <==> Store(old(contents), addr, data).Ok?
      ensures r.Err? ==> r.fault == OutOfBounds && contents == old(contents)
      ensures r.Ok? ==> contents == Store(old(contents), addr, data).value
    {
      if 0 <= addr && addr + |data| <= |contents| {
        contents := Splice(contents, addr, data);
        r := Ok(());
      } else {
        r := Err(OutOfBounds);
      }
    }
  }
}
