/** Node addresses of a mesh: their order, and the unordered pair two of them make. */
module NodeIds {
  import opened Options

  import opened Bytes

  newtype uint32 = x: int | 0 <= x < 0x1_0000_0000

  datatype NodeId =
    | Undefined
    | Ip(ip: uint32)
    | Ip6(ip6: seq<byte>)
    | Mac(mac: seq<byte>)
    | Generic(name: Option<seq<byte>>)

  function TypeOf(id: NodeId): int {
    match id case Undefined => 0 case Ip(_) => 1 case Ip6(_) => 2 case Mac(_) => 3 case Generic(_) => 4
  }

  /** memcmp and strcmp: the first difference decides, a proper prefix comes first. */
  function CompareBytes(a: seq<byte>, b: seq<byte>): int {
    if a == [] && b == [] then 0
    else if a == [] then -1
    else if b == [] then 1
    else if a[0] != b[0] then (if a[0] < b[0] then -1 else 1)
    else CompareBytes(a[1..], b[1..])
  }

  function IdComp(id1: NodeId, id2: NodeId): int {
    if TypeOf(id1) == TypeOf(id2) then
      match (id1, id2)
      case (Ip(a), Ip(b)) => if a == b then 0 else if a < b then -1 else 1
      case (Ip6(a), Ip6(b)) => CompareBytes(a, b)
      case (Mac(a), Mac(b)) => CompareBytes(a, b)
      case (Generic(a), Generic(b)) =>
        if a.None? then (if b.None? then 0 else -1)
        else if b.None? then 1 else CompareBytes(a.value, b.value)
      case _ => 0
    else if TypeOf(id1) < TypeOf(id2) then -1
    else 1
  }

  lemma {:induction false} BytesCompare(a: seq<byte>, b: seq<byte>)
    ensures CompareBytes(a, b) == -CompareBytes(b, a)
    ensures CompareBytes(a, b) == 0 <==> a == b
  {
    if a != [] && b != [] {
      assert a == [a[0]] + a[1..] && b == [b[0]] + b[1..];
      BytesCompare(a[1..], b[1..]);
    }
  }

  lemma {:induction false} BytesTransitive(a: seq<byte>, b: seq<byte>, c: seq<byte>)
    requires CompareBytes(a, b) <= 0 && CompareBytes(b, c) <= 0
    ensures CompareBytes(a, c) <= 0
  {
    if a != [] && b != [] && c != [] && a[0] == b[0] && b[0] == c[0] { BytesTransitive(a[1..], b[1..], c[1..]); }
  }

  /** Only equal addresses compare as equal, and swapping them flips the sign. */
  lemma IdCompIsAntisymmetric(a: NodeId, b: NodeId)
    ensures IdComp(a, b) == -IdComp(b, a)
    ensures IdComp(a, b) == 0 <==> a == b
  {
    match (a, b) {
      case (Ip6(x), Ip6(y)) => BytesCompare(x, y);
      case (Mac(x), Mac(y)) => BytesCompare(x, y);
      case (Generic(Some(x)), Generic(Some(y))) => BytesCompare(x, y);
      case _ =>
    }
  }

  /** With that, id_comp is a total order. */
  lemma IdCompIsTransitive(a: NodeId, b: NodeId, c: NodeId)
    requires IdComp(a, b) <= 0 && IdComp(b, c) <= 0
    ensures IdComp(a, c) <= 0
  {
    match (a, b, c) {
      case (Ip6(x), Ip6(y), Ip6(z)) => BytesTransitive(x, y, z);
      case (Mac(x), Mac(y), Mac(z)) => BytesTransitive(x, y, z);
      case (Generic(Some(x)), Generic(Some(y)), Generic(Some(z))) => BytesTransitive(x, y, z);
      case _ =>
    }
  }

  datatype Pair = Pair(first: NodeId, second: NodeId)

  /** The larger address first, as the table's keys have it. */
  function PairOf(x: NodeId, y: NodeId): Pair {
    Pair(if IdComp(x, y) > 0 then x else y, if IdComp(x, y) <= 0 then x else y)
  }

  /** Two announcements meet in one entry exactly when they name the same two nodes, in
      whichever order. */
  lemma PairsAreUnordered(a: NodeId, b: NodeId, c: NodeId, d: NodeId)
    ensures PairOf(a, b) == PairOf(c, d) <==> (a == c && b == d) || (a == d && b == c)
  {
    IdCompIsAntisymmetric(a, b);
    IdCompIsAntisymmetric(c, d);
  }

  function LongComp(p: Pair, q: Pair): int {
    if IdComp(p.first, q.first) == 0 then IdComp(p.second, q.second) else IdComp(p.first, q.first)
  }

  lemma LongCompIsEquality(p: Pair, q: Pair)
    ensures LongComp(p, q) == 0 <==> p == q
  {
    IdCompIsAntisymmetric(p.first, q.first);
    IdCompIsAntisymmetric(p.second, q.second);
  }

  // ------------------------------------------------------------ the choose callbacks

  function Mix(hash: bv32, x: bv32): bv32 {
    var h := hash + x;
    var g := h + (h << 10);
    g ^ (g >> 6)
  }

  function MixBytes(bytes: seq<byte>, hash: bv32): bv32 {
    if bytes == [] then hash else MixBytes(bytes[1..], Mix(hash, bytes[0] as bv32))
  }

  function MixIp(ip: bv32, n: nat, hash: bv32): bv32 {
    if n == 0 then hash else MixIp(ip >> 8, n - 1, Mix(hash, ip & 0xff))
  }

  /** Name bytes count as signed characters. */
  function MixName(name: seq<byte>, hash: bv32): bv32 {
    if name == [] then hash
    else
      var c := name[|name| - 1];
      var x: bv32 := if c < 128 then c as bv32 else (c as bv32) | 0xffffff00;
      MixName(name[..|name| - 1], hash + ((hash << 5) + x))
  }

  function Finish(hash: bv32, size: int): int
    requires size > 0
  {
    var a := hash + (hash << 3);
    var b := a ^ (a >> 11);
    ((b + (b << 15)) as int) % size
  }

  function IdChoose(id: NodeId, size: int): int
    requires size > 0
  {
    match id
    case Undefined => Finish(0, size)
    case Ip(ip) => Finish(MixIp(ip as bv32, 4, 0), size)
    case Ip6(b) => Finish(MixBytes(b, 0), size)
    case Mac(b) => Finish(MixBytes(b, 0), size)
    case Generic(None) => 0x1505
    case Generic(Some(name)) => (MixName(name, 0x1505) as int) % size
  }

  /** The index stays inside the table, except for a generic address without a name, which
      is not reduced to the table's size. Such an address only comes about where the name
      could not be duplicated for lack of memory. */
  lemma IdChooseInRange(id: NodeId, size: int)
    requires size > 0
    ensures 0 <= IdChoose(id, size) < size <==> (id != Generic(None) || size > 0x1505)
  {
  }

  /** For pairs the sum is reduced once more, so every index is inside. */
  function LongChoose(p: Pair, size: int): (i: int)
    requires size > 0
    ensures 0 <= i < size
  {
    (IdChoose(p.first, size) + IdChoose(p.second, size)) % size
  }
}
