/**
 `mapToEnvList`: one `NAME=value` assignment per credential, in the order
 in which the credential map happens to be iterated.

 Go does not fix the iteration order of a map, so the order is a parameter
 here: any sequence that lists every key exactly once. Everything proved
 below holds for every such order.
 */
module EnvList {
  import opened EnvKeys
  import opened Bags

  type Credentials = map<string, string>

  /** The assignment `NAME=value` as `fmt.Sprintf("%s=%s", ...)` writes it:
      the name, one `=`, and the value, with nothing added or dropped. */
  function Assignment(name: string, value: string): (e: string)
    ensures |e| == |name| + 1 + |value|
    ensures e[..|name|] == name && e[|name|] == '=' && e[|name| + 1..] == value
  {
    name + "=" + value
  }

  /** The assignment credential `k` with value `v` contributes: its
      normalised name and its value, copied unchanged. */
  function EnvLine(k: string, v: string): string {
    Assignment(EnvKey(k), v)
  }

  /** The assignments of a credential map as a bag, one per credential,
      independent of any iteration order. */
  ghost function EnvBag(kv: Credentials): multiset<string> {
    Bag(Image(kv, EnvLine))
  }

  /** `mapToEnvList` for the map `kv` iterated in `order`: entry `i` is the
      assignment of the `i`-th key visited, and the entries taken together
      are exactly the bag of assignments of `kv`, one per credential. */
  function MapToEnvList(kv: Credentials, order: seq<string>): (env: seq<string>)
    requires Enumerates(order, kv.Keys)
    ensures |env| == |order| == |kv|
    ensures forall i :: 0 <= i < |env| ==> order[i] in kv && env[i] == EnvLine(order[i], kv[order[i]])
    ensures multiset(env) == EnvBag(kv)
  {
    MapInOrder(kv, order, EnvLine)
  }

  /** Every assignment comes from some credential, and every credential
      yields its assignment. */
  lemma MapToEnvListCovers(kv: Credentials, order: seq<string>)
    requires Enumerates(order, kv.Keys)
    ensures forall e :: e in MapToEnvList(kv, order) ==> exists k :: k in kv && e == EnvLine(k, kv[k])
    ensures forall k :: k in kv ==> EnvLine(k, kv[k]) in MapToEnvList(kv, order)
  {
    var env := MapToEnvList(kv, order);
    forall e | e in env
      ensures exists k :: k in kv && e == EnvLine(k, kv[k])
    {
      var i :| 0 <= i < |env| && env[i] == e;
      assert order[i] in kv && e == EnvLine(order[i], kv[order[i]]);
    }
    forall k | k in kv
      ensures EnvLine(k, kv[k]) in env
    {
      EnumeratesHas(order, kv.Keys, k);
      var i :| 0 <= i < |order| && order[i] == k;
      assert env[i] == EnvLine(k, kv[k]);
    }
  }

  /** The list has the same entries, counted with multiplicity, whatever
      order the map is iterated in. */
  lemma OrderIrrelevant(kv: Credentials, order1: seq<string>, order2: seq<string>)
    requires Enumerates(order1, kv.Keys) && Enumerates(order2, kv.Keys)
    ensures multiset(MapToEnvList(kv, order1)) == multiset(MapToEnvList(kv, order2))
  {
  }

  /** No de-duplication: two different keys with the same name and value
      give two identical assignments. */
  lemma NoDeduplication(kv: Credentials, order: seq<string>, k1: string, k2: string)
    requires Enumerates(order, kv.Keys)
    requires k1 in kv && k2 in kv && k1 != k2
    requires EnvKey(k1) == EnvKey(k2) && kv[k1] == kv[k2]
    ensures multiset(MapToEnvList(kv, order))[EnvLine(k1, kv[k1])] >= 2
  {
    var m := Image(kv, EnvLine);
    assert m[k1] == m[k2];
    BagRepeated(m, k1, k2);
  }

  /** `"a-b"` and `"a b"` both become `A_B`, and both are exported. */
  lemma CollidingKeysExample(order: seq<string>)
    requires Enumerates(order, {"a-b", "a b"})
    ensures var env := MapToEnvList(map["a-b" := "1", "a b" := "2"], order);
      |env| == 2 && "A_B=1" in env && "A_B=2" in env
  {
    var kv := map["a-b" := "1", "a b" := "2"];
    assert kv.Keys == {"a-b", "a b"};
    assert |kv.Keys| == 2;
    CollidingLines();
    MapToEnvListCovers(kv, order);
  }

  lemma CollidingLines()
    ensures EnvLine("a-b", "1") == "A_B=1" && EnvLine("a b", "2") == "A_B=2"
  {
    CollidingExample();
    assert "A_B" + "=" + "1" == "A_B=1";
    assert "A_B" + "=" + "2" == "A_B=2";
  }
}
