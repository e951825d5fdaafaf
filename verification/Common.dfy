/** Values shared by every component: octets, optional values, results and SHA-256 digests. */
module Common {
  type byte = x: int | 0 <= x < 256

  datatype Option<+T> = None | Some(value: T)

  datatype Result<+T, +E> = Ok(value: T) | Err(error: E)

  /** The error values of reticulum-patched that the modelled code can return. */
  datatype RnsError = OutOfMemory | InvalidArgument

  /** A SHA-256 output. The hash itself is always a function parameter of type seq<byte> -> Digest. */
  type Digest = s: seq<byte> | |s| == 32 witness seq(32, _ => 0)

  /** A truncated hash used as an address or a resource id. */
  type Address = s: seq<byte> | |s| == 16 witness seq(16, _ => 0)

  const U32_SIZE: int := 0x1_0000_0000

  /** `x as u32` for a non-negative x. */
  function AsU32(x: nat): (r: nat)
    ensures r < U32_SIZE && (x < U32_SIZE ==> r == x)
  {
    x % U32_SIZE
  }

  function Flatten<T>(parts: seq<seq<T>>): seq<T> {
    if parts == [] then [] else parts[0] + Flatten(parts[1..])
  }

  lemma {:induction false} FlattenAppend<T>(a: seq<seq<T>>, b: seq<seq<T>>)
    ensures Flatten(a + b) == Flatten(a) + Flatten(b)
  {
    if a == [] {
      assert a + b == b;
    } else {
      assert (a + b)[1..] == a[1..] + b;
      FlattenAppend(a[1..], b);
    }
  }

  ghost predicate Distinct<T>(s: seq<T>) {
    forall i, j :: 0 <= i < j < |s| ==> s[i] != s[j]
  }

  /** `order` lists every element of `keys` once: one possible iteration order of a hash table. */
  ghost predicate Enumerates<T(!new)>(order: seq<T>, keys: set<T>) {
    Distinct(order) && forall k :: k in keys <==> k in order
  }

  lemma {:induction false} SubsetSize<T>(a: set<T>, b: set<T>)
    requires a <= b
    ensures |a| <= |b|
    ensures |a| == |b| ==> a == b
  {
    if a != {} {
      var x :| x in a;
      SubsetSize(a - {x}, b - {x});
    }
  }

  lemma AppendDistinct<T>(s: seq<T>, x: T)
    requires Distinct(s) && x !in s
    ensures Distinct(s + [x])
  {
  }

  /** Some iteration order of a hash table. */
  method Iterate<K(==, !new), V>(table: map<K, V>) returns (order: seq<K>)
    ensures Enumerates(order, table.Keys)
  {
    order := [];
    var left := table.Keys;
    while left != {}
      invariant left <= table.Keys && Distinct(order)
      invariant forall k :: k in order <==> k in table.Keys && k !in left
      decreases left
    {
      var k :| k in left;
      order := order + [k];
      left := left - {k};
    }
  }
}
