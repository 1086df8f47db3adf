/** Public keys: compared by the 256-bit number they encode. */
module PublicKeys {
  import opened PubkeyMaps

  datatype PublicKey = PublicKey(bn: nat)

  /** The all-zero key that fills unused account slots. */
  const DEFAULT := PublicKey(0)

  /** The key written nu111...1 in base 58. */
  const NULL_PUBKEY := PublicKey(5318091278850239503130392034594550738255658178703900428371527309990974980096)

  predicate IsNotNullPubkey(key: PublicKey) {
    key != NULL_PUBKEY && key != DEFAULT
  }

  /** HashablePublicKey.hashCode: the last 32 bits, offset. */
  function HashCode(key: PublicKey): int {
    13 * 7 + key.bn % 0x1_0000_0000
  }

  /** Keys whose last 32 bits coincide share a bucket; the map still tells them apart. */
  lemma {:induction false} CollidingKeysKeptApart<V(!new)>(a: PublicKey, b: PublicKey, x: V, y: V)
    requires a != b && a.bn % 0x1_0000_0000 == b.bn % 0x1_0000_0000
    ensures var bs := HashRun(HashCode, [], [CallSet(a, x), CallSet(b, y)]).0;
            |bs| == 1 && HashGet(bs, HashCode(a), a).Some? && HashGet(bs, HashCode(a), a).value == x
                      && HashGet(bs, HashCode(b), b).Some? && HashGet(bs, HashCode(b), b).value == y
  {
    var first := HashSet([], HashCode(a), a, x);
    assert first == [Bucket(HashCode(a), [Entry(a, x)])];
    HashSetLaws(HashCode, [], a, x);
    HashSetLaws(HashCode, first, b, y);
    var calls := [CallSet(a, x), CallSet(b, y)];
    assert calls[1..] == [CallSet(b, y)];
    assert HashRun(HashCode, first, calls[1..]).0 == HashSet(first, HashCode(b), b, y) by {
      assert calls[1..][1..] == [];
    }
  }
}
