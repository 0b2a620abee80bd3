/** Pages of a file, and a backing store in which a page that was never written is zero. */
module PageData {
  const PAGE_SIZE: nat := 4096

  type Data = d: seq<int> | |d| == PAGE_SIZE witness seq(PAGE_SIZE, _ => 0)
  type Index = nat

  function Zero(): Data {
    seq(PAGE_SIZE, _ => 0)
  }

  function Splice(d: Data, off: nat, bytes: seq<int>): Data
    requires off + |bytes| <= PAGE_SIZE
  {
    d[..off] + bytes + d[off + |bytes|..]
  }

  function At(m: map<Index, Data>, i: Index): Data {
    if i in m then m[i] else Zero()
  }
}
