/** plist_data_hash of airplay/libplist/src/bplist.c (lines 763-807). */
module PlistHash {
  import opened Bytes
  import opened PlistTree
  import opened PlistObjects

  /** The plist_type enumeration. */
  function TypeCode(d: Data): bv32 {
    match d
    case Boolean(_) => 0
    case UInt(_) => 1
    case Text(_) => 3
    case Array => 4
    case Dict => 5
    case Blob(_) => 7
    case Key(_) => 8
    case Uid(_) => 9
  }

  /** `hash << 7 ^ *buff` for each byte, a char. */
  function HashBytes(hash: bv32, buff: seq<Byte>, signedChar: bool): bv32
    decreases |buff|
  {
    if buff == [] then hash else HashBytes(Mixed(hash, buff[0], signedChar), buff[1..], signedChar)
  }

  function Mixed(hash: bv32, c: Byte, signedChar: bool): bv32 {
    (hash << 7) ^ (if signedChar && c >= 0x80 then c as bv32 | 0xFFFF_FF00 else c as bv32)
  }

  /** Where the nodes are in memory, that is the bytes of each one's address, and whether char is signed. */
  datatype Machine = Machine(address: nat -> seq<Byte>, signedChar: bool)

  /** plist_data_hash: scalars and strings by content, data and containers by pointer. */
  function Hash(p: Ref, machine: Machine): bv32 {
    var content :=
      match p.node.data
      case Boolean(b) => LittleEndian(if b then 1 else 0, 8)
      case UInt(n) => LittleEndian(n, 8)
      case Uid(n) => LittleEndian(n, 8)
      case Text(s) => s
      case Key(s) => s
      case _ => machine.address(p.id);
    HashBytes(TypeCode(p.node.data), content, machine.signedChar)
  }

  /** The chain of the hash table a node belongs to. */
  function Bucket(p: Ref, machine: Machine): (b: nat)
    ensures b < 256
  {
    (Hash(p, machine) & 0xFF) as nat
  }

  /** Nodes with the same data always meet in the same chain, except data, arrays and dictionaries, hashed by pointer. */
  lemma EqualsShareBucket(a: Ref, b: Ref, machine: Machine)
    requires a.node.data == b.node.data && !a.node.data.Blob? && !a.node.data.Array? && !a.node.data.Dict?
    ensures Bucket(a, machine) == Bucket(b, machine)
  {
  }

  lemma LowByte(hash: bv32, b: bv32, c: bv32, bSigned: bool, cSigned: bool)
    ensures var next := (hash << 7) ^ (if bSigned then b | 0xFFFF_FF00 else b);
      ((next << 7) ^ (if cSigned then c | 0xFFFF_FF00 else c)) & 0xFF == (c ^ (b << 7)) & 0xFF
  {
  }

  lemma LowByteOfTwo(hash: bv32, b: Byte, c: Byte, signedChar: bool)
    ensures Mixed(Mixed(hash, b, signedChar), c, signedChar) & 0xFF == (c as bv32 ^ (b as bv32 << 7)) & 0xFF
  {
    LowByte(hash, b as bv32, c as bv32, signedChar && b >= 0x80, signedChar && c >= 0x80);
  }

  lemma HashOfTwo(hash: bv32, b: Byte, c: Byte, signedChar: bool)
    ensures HashBytes(hash, [b, c], signedChar) == Mixed(Mixed(hash, b, signedChar), c, signedChar)
  {
    assert [b, c][1..] == [c] && [c][1..] == [];
    var m := Mixed(hash, b, signedChar);
    assert HashBytes(m, [c], signedChar) == HashBytes(Mixed(m, c, signedChar), [], signedChar);
  }

  lemma {:induction false} HashIsOfLastTwo(hash: bv32, buff: seq<Byte>, b: Byte, c: Byte, signedChar: bool) returns (before: bv32)
    ensures HashBytes(hash, buff + [b, c], signedChar) == HashBytes(before, [b, c], signedChar)
    decreases |buff|
  {
    if buff == [] {
      assert buff + [b, c] == [b, c];
      before := hash;
    } else {
      assert (buff + [b, c])[1..] == buff[1..] + [b, c];
      before := HashIsOfLastTwo(Mixed(hash, buff[0], signedChar), buff[1..], b, c, signedChar);
    }
  }

  /**
    Shifted by seven for each byte, a hash keeps in its low byte, by which the table chooses its chain, the last byte and
    one bit of the one before.
  */
  lemma LastTwoBytes(hash: bv32, buff: seq<Byte>, b: Byte, c: Byte, signedChar: bool)
    ensures HashBytes(hash, buff + [b, c], signedChar) & 0xFF == (c as bv32 ^ (b as bv32 << 7)) & 0xFF
  {
    var before := HashIsOfLastTwo(hash, buff, b, c, signedChar);
    HashOfTwo(before, b, c, signedChar);
    LowByteOfTwo(before, b, c, signedChar);
  }

  /** So a string or key of two bytes or more is in the chain of its last two bytes, an array or dictionary of its address's. */
  lemma BucketIs(p: Ref, machine: Machine, buff: seq<Byte>, b: Byte, c: Byte)
    requires match p.node.data
      case Text(s) => s == buff + [b, c]
      case Key(s) => s == buff + [b, c]
      case Boolean(_) => false
      case UInt(_) => false
      case Uid(_) => false
      case _ => machine.address(p.id) == buff + [b, c]
    ensures Bucket(p, machine) == ((c as bv32 ^ (b as bv32 << 7)) & 0xFF) as nat
  {
    var hash := Hash(p, machine);
    assert hash == HashBytes(TypeCode(p.node.data), buff + [b, c], machine.signedChar);
    LastTwoBytes(TypeCode(p.node.data), buff, b, c, machine.signedChar);
  }

  /** The word of a boolean or number; -1 for all others. */
  function WordOf(d: Data): int {
    match d
    case Boolean(b) => if b then 1 else 0
    case UInt(n) => n
    case Uid(n) => n
    case _ => -1
  }

  /** And all booleans and all numbers below 2^48 are in chain 0: their last two bytes are the most significant ones. */
  lemma NumbersMeet(p: Ref, machine: Machine)
    requires 0 <= WordOf(p.node.data) < 0x1_0000_0000_0000
    ensures Bucket(p, machine) == 0
  {
    var n := WordOf(p.node.data);
    TopBytes(n);
    LastTwoBytes(TypeCode(p.node.data), LittleEndian(n, 8)[..6], 0, 0, machine.signedChar);
    assert LittleEndian(n, 8)[..6] + [0, 0] == LittleEndian(n, 8);
  }

  lemma TopBytes(n: nat)
    requires n < 0x1_0000_0000_0000
    ensures LittleEndian(n, 8)[6..] == [0, 0]
  {
    LowBytes(n, 6, 8);
  }

  lemma {:induction false} LowBytes(n: nat, k: nat, w: nat)
    requires k < w && n < Power256(k)
    ensures forall i :: k <= i < w ==> LittleEndian(n, w)[i] == 0
  {
    if k > 0 {
      LowBytes(n / 256, k - 1, w - 1);
    } else if w > 1 {
      LowBytes(0, 0, w - 1);
    }
  }

  /** Equal scalars, strings and keys are written once: only data, arrays and dictionaries can repeat. */
  lemma SharingIsMaximal(t: Node, machine: Machine, i: nat, j: nat)
    requires WellFormed(t)
    requires var objects := ObjectsOf(t, p => Bucket(p, machine));
      i < j < |objects| && objects[i].node.data == objects[j].node.data
    ensures var d := ObjectsOf(t, p => Bucket(p, machine))[i].node.data; d.Blob? || d == Array || d == Dict
  {
    var chain := p => Bucket(p, machine);
    var objects := ObjectsOf(t, chain);
    ObjectsAreGood(t, chain);
    assert !Same(objects[i], objects[j], chain);
    var d := objects[i].node.data;
    if !d.Blob? && !d.Array? && !d.Dict? {
      EqualsShareBucket(objects[i], objects[j], machine);
    }
  }

  /** Two nodes are written as one object exactly if they are the same scalar, string or key, or data that happen to meet. */
  lemma EqualNodesShareIff(t: Node, machine: Machine, a: Ref, b: Ref)
    requires WellFormed(t) && a in Flatten(Root(t)) && b in Flatten(Root(t)) && a != b
    ensures var chain := p => Bucket(p, machine); var objects := ObjectsOf(t, chain);
      IndexOf(objects, a, chain) == IndexOf(objects, b, chain)
      <==> a.node.data == b.node.data && a.node.data != Array && a.node.data != Dict
           && (a.node.data.Blob? ==> Bucket(a, machine) == Bucket(b, machine))
  {
    SharedIff(t, p => Bucket(p, machine), a, b);
    var d := a.node.data;
    if d == b.node.data && !d.Blob? && !d.Array? && !d.Dict? {
      EqualsShareBucket(a, b, machine);
    }
  }

  /** The table with this hash answers every lookup the writer makes with an equal object. */
  lemma LookupsSucceed(t: Node, machine: Machine, q: Ref)
    requires WellFormed(t) && q in Flatten(Root(t))
    ensures var objects, chain := ObjectsOf(t, p => Bucket(p, machine)), (p => Bucket(p, machine));
      && IndexOf(objects, q, chain).Some?
      && objects[IndexOf(objects, q, chain).value].node.data == q.node.data
      && (q.node.data.IsContainer() ==> objects[IndexOf(objects, q, chain).value] == q)
  {
    ObjectsAreGood(t, p => Bucket(p, machine));
  }
}
