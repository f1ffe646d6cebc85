/** Types shared by the modules of this project. */
module Common {

  /** A value that may be absent, as a nil pointer or a missing key is in the source. */
  datatype Option<+T> = None | Some(value: T)

  /** Number of values of a uint64. */
  const TWO64: nat := 0x1_0000_0000_0000_0000

  /** A 64-bit unsigned integer. */
  type uint64 = n: nat | n < TWO64
  type uint32 = n: nat | n < 0x1_0000_0000
  type uint16 = n: nat | n < 0x1_0000
  type byte = n: nat | n < 0x100

  /** Where an add is found: the height of its forwarding package and its index there. */
  datatype AddRef = AddRef(height: uint64, index: uint16)

  /** The set of elements of a sequence. */
  ghost function Elems<T>(s: seq<T>): (r: set<T>) {
    set x | x in s
  }

  /** No element occurs at two positions. */
  ghost predicate Distinct<T>(s: seq<T>) {
    forall i, j :: 0 <= i < j < |s| ==> s[i] != s[j]
  }

  /** Two different inputs with one hash. */
  predicate Collide<T(==), U(==)>(h: T -> U, a: T, b: T) {
    a != b && h(a) == h(b)
  }

  lemma MapMinus<K, V>(m: map<K, V>, a: set<K>, b: set<K>)
    ensures m - (a + b) == m - a - b
  {
  }

  lemma SetMinus<T>(s: set<T>, a: set<T>, b: set<T>)
    ensures s - (a + b) == s - a - b
  {
  }

  lemma SetPlus<T>(s: set<T>, a: set<T>, b: set<T>)
    ensures s + (a + b) == s + a + b
    ensures s - a + a == s + a
    ensures s - a + s * a * a == s
  {
  }

  lemma MapPlus<K, V>(m: map<K, V>, r: map<K, V>, k: K, v: V)
    ensures m + r[k := v] == (m + r)[k := v]
  {
  }

  lemma MapBack<K, V>(m: map<K, V>, r: map<K, V>)
    requires forall k :: k in r ==> k in m && m[k] == r[k]
    ensures m - r.Keys + r == m
  {
  }

  lemma MapTake<K, V>(m: map<K, V>, rest: set<K>, k: K)
    requires rest <= m.Keys && k in rest
    ensures (m - rest)[k := m[k]] == m - (rest - {k})
    ensures k !in m - rest
  {
  }

  lemma MapAll<K, V>(m: map<K, V>)
    ensures m - m.Keys == map[] && m - {} == m
  {
  }
}
