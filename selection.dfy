/**
 * The comparison-series selection: an ordered list of at most eight
 * series, each with a stored colour, together with the set of series
 * hidden from the chart and the status message shown beside the list.
 */
module Selections {
  import opened Wrappers
  import opened Fields

  /** At most this many series can be selected at once. */
  const MaxSeries: nat := 8

  /** The series colours; a new series takes the entry at the list length modulo 8. */
  const Palette: seq<string> :=
    ["#1f77b4", "#ff7f0e", "#2ca02c", "#d62728", "#9467bd", "#17becf", "#8c564b", "#e377c2"]

  /** The status message set when the cap is reached. */
  const MaxMessage: string := "Maximum 8 series selected."

  /** A series is identified by its scope and the key of its entity within that scope. */
  datatype SeriesId = SeriesId(scope: Scope, entityKey: string)

  /** The identifier as text, `${scope}:${entityKey}`. */
  function SeriesIdText(id: SeriesId): string {
    id.scope.Name() + ":" + id.entityKey
  }

  lemma ScopeNameHasNoColon(s: Scope)
    ensures ':' !in s.Name()
  {
  }

  /** The position of the first ':' in a text, or its length when there is none. */
  function FirstColon(t: string): (r: nat)
    ensures r <= |t|
  {
    if t == [] then 0 else if t[0] == ':' then 0 else FirstColon(t[1..]) + 1
  }

  lemma {:induction false} FirstColonAfter(n: string, k: string)
    requires ':' !in n
    ensures FirstColon(n + ":" + k) == |n|
  {
    if n != [] {
      assert (n + ":" + k)[1..] == n[1..] + ":" + k;
      FirstColonAfter(n[1..], k);
    }
  }

  /** A prefix without the separator is recovered from the joined text. */
  lemma SeparatorSplit(n1: string, k1: string, n2: string, k2: string)
    requires ':' !in n1 && ':' !in n2
    requires n1 + ":" + k1 == n2 + ":" + k2
    ensures n1 == n2 && k1 == k2
  {
    var t := n1 + ":" + k1;
    FirstColonAfter(n1, k1);
    FirstColonAfter(n2, k2);
    assert n1 == t[..|n1|] == n2;
    assert k1 == t[|n1| + 1..] == k2;
  }

  /**
   * The text form identifies the series: two identifiers have the same
   * text exactly when they are equal, because no scope name contains ':'.
   */
  lemma SeriesIdTextInjective(a: SeriesId, b: SeriesId)
    ensures SeriesIdText(a) == SeriesIdText(b) <==> a == b
  {
    if SeriesIdText(a) == SeriesIdText(b) {
      ScopeNameHasNoColon(a.scope);
      ScopeNameHasNoColon(b.scope);
      SeparatorSplit(a.scope.Name(), a.entityKey, b.scope.Name(), b.entityKey);
    }
  }

  /** One selected series as the list stores it. */
  datatype SeriesSelection = SeriesSelection(scope: Scope, entityKey: string, caption: string, color: string) {
    function Id(): SeriesId {
      SeriesId(scope, entityKey)
    }
  }

  /** The caption of a new series: the market is called "All MA", any other entity by its key. */
  function CaptionFor(scope: Scope, entityKey: string): string {
    if scope == AllMa then "All MA" else entityKey
  }

  predicate IdsDistinct(sels: seq<SeriesSelection>) {
    forall i, j :: 0 <= i < j < |sels| ==> sels[i].Id() != sels[j].Id()
  }

  /** `findIndex`: the position of the first series with this id, if any. */
  function FindIndex(sels: seq<SeriesSelection>, id: SeriesId): (r: Option<nat>)
    ensures r.None? <==> forall i :: 0 <= i < |sels| ==> sels[i].Id() != id
    ensures r.Some? ==>
      && r.value < |sels| && sels[r.value].Id() == id
      && forall j :: 0 <= j < r.value ==> sels[j].Id() != id
  {
    if sels == [] then None
    else if sels[0].Id() == id then Some(0)
    else match FindIndex(sels[1..], id)
      case None => None
      case Some(i) => Some(i + 1)
  }

  /** `filter((s) => s.id !== id)`: every series but the one with this id, in order. */
  function WithoutId(sels: seq<SeriesSelection>, id: SeriesId): (r: seq<SeriesSelection>)
    ensures |r| <= |sels|
  {
    if sels == [] then []
    else (if sels[0].Id() == id then [] else [sels[0]]) + WithoutId(sels[1..], id)
  }

  /** Filtering keeps exactly the series with another id. */
  lemma {:induction false} WithoutIdMembers(sels: seq<SeriesSelection>, id: SeriesId)
    ensures forall s :: s in WithoutId(sels, id) <==> s in sels && s.Id() != id
  {
    if sels != [] {
      WithoutIdMembers(sels[1..], id);
      assert sels == [sels[0]] + sels[1..];
    }
  }

  /** Filtering a list of distinct ids leaves the ids distinct. */
  lemma {:induction false} WithoutIdDistinct(sels: seq<SeriesSelection>, id: SeriesId)
    requires IdsDistinct(sels)
    ensures IdsDistinct(WithoutId(sels, id))
  {
    if sels != [] {
      var tail := sels[1..];
      assert IdsDistinct(tail) by {
        forall a, b | 0 <= a < b < |tail|
          ensures tail[a].Id() != tail[b].Id()
        {
          assert tail[a] == sels[a + 1] && tail[b] == sels[b + 1];
        }
      }
      WithoutIdDistinct(tail, id);
      var r := WithoutId(tail, id);
      if sels[0].Id() != id {
        WithoutIdMembers(tail, id);
        forall j | 0 <= j < |r|
          ensures r[j].Id() != sels[0].Id()
        {
          assert r[j] in tail;
          var k :| 0 <= k < |tail| && tail[k] == r[j];
          assert sels[k + 1] == r[j];
        }
        var r' := [sels[0]] + r;
        forall a, b | 0 <= a < b < |r'|
          ensures r'[a].Id() != r'[b].Id()
        {
          if a == 0 {
            assert r'[b] == r[b - 1];
          } else {
            assert r'[a] == r[a - 1] && r'[b] == r[b - 1];
          }
        }
      }
    }
  }

  /** Removing a present id cuts exactly its one entry out, keeping the others' order and colours. */
  lemma {:induction false} RemoveAt(sels: seq<SeriesSelection>, i: nat)
    requires IdsDistinct(sels) && i < |sels|
    ensures WithoutId(sels, sels[i].Id()) == sels[..i] + sels[i + 1..]
  {
    var id := sels[i].Id();
    var tail := sels[1..];
    if i == 0 {
      forall k | 0 <= k < |tail|
        ensures tail[k].Id() != id
      {
        assert tail[k] == sels[k + 1];
      }
      RemoveAbsent(tail, id);
    } else {
      assert IdsDistinct(tail) by {
        forall a, b | 0 <= a < b < |tail|
          ensures tail[a].Id() != tail[b].Id()
        {
          assert tail[a] == sels[a + 1] && tail[b] == sels[b + 1];
        }
      }
      assert tail[i - 1] == sels[i];
      RemoveAt(tail, i - 1);
      assert sels[0].Id() != id;
      assert [sels[0]] + tail[..i - 1] == sels[..i];
      assert tail[i..] == sels[i + 1..];
    }
  }

  /** Removing an absent id leaves the list as it is. */
  lemma {:induction false} RemoveAbsent(sels: seq<SeriesSelection>, id: SeriesId)
    requires forall i :: 0 <= i < |sels| ==> sels[i].Id() != id
    ensures WithoutId(sels, id) == sels
  {
    if sels != [] {
      assert sels[0].Id() != id;
      RemoveAbsent(sels[1..], id);
      assert sels == [sels[0]] + sels[1..];
    }
  }

  /** The selection list, the hidden series and the status message. */
  class SelectionStore {
    var selections: seq<SeriesSelection>
    var hiddenSeries: set<SeriesId>
    var message: string

    /** The list respects the cap and holds each id at most once. */
    ghost predicate Valid()
      reads this
    {
      |selections| <= MaxSeries && IdsDistinct(selections)
    }

    constructor()
      ensures Valid()
      ensures selections == [] && hiddenSeries == {} && message == ""
    {
      selections := [];
      hiddenSeries := {};
      message := "";
    }

    /** `findSelection`: the stored series with this id, if any. */
    function FindSelection(id: SeriesId): (r: Option<SeriesSelection>)
      reads this
      ensures r.None? <==> forall i :: 0 <= i < |selections| ==> selections[i].Id() != id
      ensures r.Some? ==> r.value in selections && r.value.Id() == id
    {
      match FindIndex(selections, id)
      case None => None
      case Some(i) => Some(selections[i])
    }

    /**
     * `getColorForSeries`: a listed series gets the palette entry of its
     * position, an unlisted one the entry a new series would get.
     */
    function ColorForSeries(id: SeriesId): (c: string)
      reads this
      ensures c in Palette
      ensures forall i :: (0 <= i < |selections| && selections[i].Id() == id && IdsDistinct(selections)
        ==> c == Palette[i % MaxSeries])
      ensures (forall i :: 0 <= i < |selections| ==> selections[i].Id() != id)
        ==> c == Palette[|selections| % MaxSeries]
    {
      var pos := match FindIndex(selections, id) case Some(i) => i case None => |selections|;
      Palette[pos % |Palette|]
    }

    /**
     * `addSelection`: an already listed series is accepted and nothing
     * changes, the message included; a full list refuses the series and says
     * so; otherwise the series is appended with the colour of its position and
     * the message is cleared.
     */
    method AddSelection(scope: Scope, entityKey: string) returns (accepted: bool)
      requires Valid()
      modifies this
      ensures Valid()
      ensures hiddenSeries == old(hiddenSeries)
      ensures (exists i :: 0 <= i < |old(selections)| && old(selections)[i].Id() == SeriesId(scope, entityKey)) ==>
        accepted && selections == old(selections) && message == old(message)
      ensures ((forall i :: 0 <= i < |old(selections)| ==> old(selections)[i].Id() != SeriesId(scope, entityKey))
        && |old(selections)| >= MaxSeries) ==>
        !accepted && selections == old(selections) && message == MaxMessage
      ensures ((forall i :: 0 <= i < |old(selections)| ==> old(selections)[i].Id() != SeriesId(scope, entityKey))
        && |old(selections)| < MaxSeries) ==>
        accepted && message == ""
        && selections == old(selections)
           + [SeriesSelection(scope, entityKey, CaptionFor(scope, entityKey), Palette[|old(selections)| % MaxSeries])]
    {
      var id := SeriesId(scope, entityKey);
      if FindSelection(id).Some? {
        return true;
      }
      if |selections| >= MaxSeries {
        message := MaxMessage;
        return false;
      }
      var sel := SeriesSelection(scope, entityKey, CaptionFor(scope, entityKey), ColorForSeries(id));
      selections := selections + [sel];
      message := "";
      accepted := true;
    }

    /**
     * `removeSelection`: drops the series with this id, keeps the others in
     * order with their colours, un-hides the id and clears the message.
     */
    method RemoveSelection(id: SeriesId)
      requires Valid()
      modifies this
      ensures Valid()
      ensures selections == WithoutId(old(selections), id)
      ensures hiddenSeries == old(hiddenSeries) - {id}
      ensures message == ""
    {
      WithoutIdDistinct(selections, id);
      selections := WithoutId(selections, id);
      hiddenSeries := hiddenSeries - {id};
      message := "";
    }

    /** `toggleSelection`: removes a listed series, adds any other. */
    method ToggleSelection(scope: Scope, entityKey: string)
      requires Valid()
      modifies this
      ensures Valid()
      ensures (exists i :: 0 <= i < |old(selections)| && old(selections)[i].Id() == SeriesId(scope, entityKey)) ==>
        selections == WithoutId(old(selections), SeriesId(scope, entityKey))
        && hiddenSeries == old(hiddenSeries) - {SeriesId(scope, entityKey)}
        && message == ""
      ensures (forall i :: 0 <= i < |old(selections)| ==> old(selections)[i].Id() != SeriesId(scope, entityKey)) ==>
        hiddenSeries == old(hiddenSeries)
        && (|old(selections)| >= MaxSeries ==> selections == old(selections) && message == MaxMessage)
        && (|old(selections)| < MaxSeries ==>
              message == ""
              && selections == old(selections)
                 + [SeriesSelection(scope, entityKey, CaptionFor(scope, entityKey), Palette[|old(selections)| % MaxSeries])])
    {
      var id := SeriesId(scope, entityKey);
      if FindSelection(id).Some? {
        RemoveSelection(id);
        return;
      }
      var _ := AddSelection(scope, entityKey);
    }
  }

  /** Adds two contracts to an empty store and removes the first again. */
  method SecondOfTwo() returns (store: SelectionStore)
    ensures fresh(store) && store.Valid()
    ensures store.selections == [SeriesSelection(Contract, "H0002", CaptionFor(Contract, "H0002"), Palette[1])]
  {
    var id1, id2 := SeriesId(Contract, "H0001"), SeriesId(Contract, "H0002");
    assert id1 != id2 by {
      assert "H0001"[4] != "H0002"[4];
    }
    store := new SelectionStore();
    var a := store.AddSelection(Contract, "H0001");
    var s1 := store.selections[0];
    assert store.selections == [s1] && s1.Id() == id1;
    var b := store.AddSelection(Contract, "H0002");
    var s2 := store.selections[1];
    assert store.selections == [s1, s2] && s2.Id() == id2 && s2.color == Palette[1];
    RemoveAt(store.selections, 0);
    store.RemoveSelection(id1);
  }

  /**
   * Colours are not kept distinct: after removing the first of two series,
   * a third one added takes the palette entry of position 1, which the
   * remaining series already holds.
   */
  method ColorsCanRepeat() returns (store: SelectionStore)
    ensures fresh(store) && store.Valid() && |store.selections| == 2
    ensures store.selections[0].color == store.selections[1].color == Palette[1]
  {
    store := SecondOfTwo();
    var s2 := store.selections[0];
    assert s2.Id() != SeriesId(Contract, "H0003") by {
      assert "H0002"[4] != "H0003"[4];
    }
    assert |store.selections| % MaxSeries == 1;
    var c := store.AddSelection(Contract, "H0003");
    assert store.selections == [s2, SeriesSelection(Contract, "H0003", CaptionFor(Contract, "H0003"), Palette[1])];
  }
}
