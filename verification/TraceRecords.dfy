/** The records of a run trace, and picking the first or last value present in a list. */
module TraceRecords {
  import opened Wrappers

  datatype Payload = Payload(rootPid: Option<int>, processGroupId: Option<int>, memoryGroupId: Option<string>,
                             status: Option<string>)

  datatype TraceRecord = TraceRecord(runId: string, issueId: Option<string>, agent: Option<string>, eventType: string,
                                     ts: Option<string>, tsUnixMs: Option<nat>, payload: Option<Payload>)

  function Or<T>(a: Option<T>, b: Option<T>): Option<T> {
    if a.Some? then a else b
  }

  function FirstPresent<T>(items: seq<Option<T>>): Option<T> {
    if items == [] then None else Or(items[0], FirstPresent(items[1..]))
  }

  function LastPresent<T>(items: seq<Option<T>>): Option<T> {
    if items == [] then None else Or(items[|items| - 1], LastPresent(items[..|items| - 1]))
  }

  lemma {:induction false} FirstPresentNext<T>(items: seq<Option<T>>, item: Option<T>)
    ensures FirstPresent(items + [item]) == Or(FirstPresent(items), item)
  {
    if items == [] {
      assert items + [item] == [item];
    } else {
      assert (items + [item])[1..] == items[1..] + [item];
      FirstPresentNext(items[1..], item);
    }
  }

  lemma LastPresentNext<T>(items: seq<Option<T>>, item: Option<T>)
    ensures LastPresent(items + [item]) == Or(item, LastPresent(items))
  {
    assert (items + [item])[..|items|] == items;
  }

  /** Entry `i` is the last that is present. */
  predicate IsLastPresent<T>(items: seq<Option<T>>, i: nat) {
    i < |items| && items[i].Some? && forall j :: i < j < |items| ==> items[j].None?
  }

  /** The last value present is that of the last entry that is present; there is none if no entry is. */
  lemma {:induction false} LastPresentIs<T>(items: seq<Option<T>>)
    ensures forall i: nat :: IsLastPresent(items, i) ==> LastPresent(items) == items[i]
    ensures LastPresent(items).None? <==> forall i :: 0 <= i < |items| ==> items[i].None?
  {
    if items != [] {
      var n := |items| - 1;
      LastPresentIs(items[..n]);
      assert forall i :: 0 <= i < n ==> items[..n][i] == items[i];
      assert forall i: nat :: items[n].Some? && IsLastPresent(items, i) ==> i == n;
      assert forall i: nat :: items[n].None? && IsLastPresent(items, i) ==> IsLastPresent(items[..n], i);
    }
  }
}
