/**
  The request-URL builder `_build_query` of `VkApiAccessor` (app/store/vk_api/accessor.py).
  The caller's parameter dict, which the builder updates in place, is a `Params` object
  whose entries keep the dict's insertion order.
 */
module VkApi {
  const ApiVersion: string := "5.131"

  predicate HasKey(entries: seq<(string, string)>, k: string) {
    exists i :: 0 <= i < |entries| && entries[i].0 == k
  }

  predicate UniqueKeys(entries: seq<(string, string)>) {
    forall i, j :: 0 <= i < j < |entries| ==> entries[i].0 != entries[j].0
  }

  /** A parameter dict, mutated by the builder. */
  class Params {
    var entries: seq<(string, string)>

    predicate Valid()
      reads this
    {
      UniqueKeys(entries)
    }

    constructor (entries: seq<(string, string)>)
      requires UniqueKeys(entries)
      ensures Valid() && this.entries == entries
    {
      this.entries := entries;
    }
  }

  /** The dict after the builder: an absent "v" is appended with the API version, a
      present one is left as it is. */
  function WithVersion(entries: seq<(string, string)>): (r: seq<(string, string)>)
    ensures HasKey(entries, "v") ==> r == entries
    ensures !HasKey(entries, "v") ==> r == entries + [("v", ApiVersion)]
    ensures UniqueKeys(entries) ==> UniqueKeys(r) && HasKey(r, "v")
  {
    if HasKey(entries, "v") then entries
    else
      var r := entries + [("v", ApiVersion)];
      assert r[|entries|].0 == "v";
      r
  }

  /** `f"{k}={v}"` for every entry, in order. */
  function Rendered(entries: seq<(string, string)>): (r: seq<string>)
    ensures |r| == |entries|
    ensures forall i :: 0 <= i < |entries| ==> r[i] == entries[i].0 + "=" + entries[i].1
  {
    seq(|entries|, i requires 0 <= i < |entries| => entries[i].0 + "=" + entries[i].1)
  }

  /** `"&".join(items)`. */
  function Join(items: seq<string>): string {
    if items == [] then ""
    else if |items| == 1 then items[0]
    else Join(items[..|items| - 1]) + "&" + items[|items| - 1]
  }

  /** The query string of `entries`. */
  function Query(entries: seq<(string, string)>): string {
    Join(Rendered(entries))
  }

  /** `_build_query`. */
  method BuildQuery(host: string, methodName: string, params: Params) returns (url: string)
    requires params.Valid()
    modifies params
    ensures params.Valid()
    ensures params.entries == WithVersion(old(params.entries))
    ensures url == host + methodName + "?" + Query(params.entries)
  {
    url := host + methodName + "?";
    if !HasKey(params.entries, "v") {
      params.entries := params.entries + [("v", ApiVersion)];
    }
    url := url + Join(Rendered(params.entries));
  }

  /** One more pair extends the query by "&k=v" (or is the whole query). */
  lemma QuerySnoc(entries: seq<(string, string)>, k: string, v: string)
    ensures Query(entries + [(k, v)]) == (if entries == [] then "" else Query(entries) + "&") + k + "=" + v
  {
    var items := Rendered(entries + [(k, v)]);
    assert items[..|items| - 1] == Rendered(entries);
  }

  /** With no "v" given, the query ends in "v=5.131", after every given pair. */
  lemma VersionComesLast(entries: seq<(string, string)>)
    requires !HasKey(entries, "v")
    ensures Query(WithVersion(entries)) == (if entries == [] then "" else Query(entries) + "&") + "v=" + ApiVersion
  {
    QuerySnoc(entries, "v", ApiVersion);
  }

  /** Nothing is escaped: a value holding "&" and "=" is indistinguishable from two pairs. */
  lemma NoEscaping()
    ensures Query([("a", "1&b=2")]) == Query([("a", "1"), ("b", "2")])
  {
    QuerySnoc([("a", "1")], "b", "2");
    QuerySnoc([], "a", "1");
    QuerySnoc([], "a", "1&b=2");
    assert [("a", "1")] + [("b", "2")] == [("a", "1"), ("b", "2")];
  }
}
