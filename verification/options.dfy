/**
 * The post-processing pass: the emitted entries become an ordered map of
 * selectable options and a list of closed-day reasons, with the
 * "No available pickup times" fallback when nothing is selectable.
 *
 * Keys are not unique (the 12-hour key of a 9:00 slot equals that of a 21:00
 * slot, and a weekday's keys repeat a week later), so the map is modelled
 * with PHP's assignment semantics: a repeated key keeps the position of its
 * first insertion and takes the label of its last.
 */
module Options {
  import opened Wrappers
  import opened Entries

  /** A selectable option: a slot's key and label, or the placeholder whose
      key is empty and whose label is "No available pickup times". */
  datatype Choice = Pickup(key: SlotKey, display: SlotLabel) | NoAvailablePickupTimes

  /** The two arrays the generator returns, and whether the caller must hide
      the order review (the source's `remove_action` call). */
  datatype SlotResult = SlotResult(options: seq<Choice>, closedReasons: seq<Reason>, suppressReview: bool)

  /** An ordered PHP array from slot keys to labels. */
  type OrderedMap = seq<(SlotKey, SlotLabel)>

  function KeysOf(m: OrderedMap): (ks: seq<SlotKey>)
    ensures |ks| == |m|
  {
    seq(|m|, j requires 0 <= j < |m| => m[j].0)
  }

  ghost predicate Distinct(ks: seq<SlotKey>) {
    forall a, b :: 0 <= a < b < |ks| ==> ks[a] != ks[b]
  }

  /** The position of key `k` in `m`, if any. */
  function Find(m: OrderedMap, k: SlotKey): (r: Option<nat>)
    ensures r.Some? ==> r.value < |m| && m[r.value].0 == k
    ensures r.None? ==> forall j :: 0 <= j < |m| ==> m[j].0 != k
  {
    if m == [] then None
    else if m[0].0 == k then Some(0)
    else match Find(m[1..], k)
      case Some(j) => Some(j + 1)
      case None => None
  }

  /** `$m[$k] = $v`: overwrite in place when the key is present, append otherwise. */
  function Put(m: OrderedMap, k: SlotKey, v: SlotLabel): OrderedMap {
    match Find(m, k)
    case Some(j) => m[j := (k, v)]
    case None => m + [(k, v)]
  }

  /** A present key keeps its place and takes the new label; an absent key
      is appended; no other pair changes. */
  lemma PutFacts(m: OrderedMap, k: SlotKey, v: SlotLabel)
    requires Distinct(KeysOf(m))
    ensures KeysOf(Put(m, k, v)) == if k in KeysOf(m) then KeysOf(m) else KeysOf(m) + [k]
    ensures forall j :: 0 <= j < |Put(m, k, v)| ==>
      Put(m, k, v)[j] == if Put(m, k, v)[j].0 == k then (k, v) else m[j]
  {
    var r := Put(m, k, v);
    match Find(m, k)
    case Some(i) =>
      assert k in KeysOf(m) by { assert KeysOf(m)[i] == k; }
      assert KeysOf(r) == KeysOf(m);
      forall j | 0 <= j < |r| && j != i
        ensures r[j].0 != k
      {
        assert KeysOf(m)[j] == m[j].0 && KeysOf(m)[i] == k;
      }
    case None =>
      assert k !in KeysOf(m);
      assert KeysOf(r) == KeysOf(m) + [k];
  }

  /** The keys of the slot entries, in generation order, repeats included. */
  function SlotKeys(es: seq<Entry>): seq<SlotKey>
    decreases |es|
  {
    if es == [] then []
    else
      var e := es[|es| - 1];
      SlotKeys(es[..|es| - 1]) + (if e.Slot? then [e.key] else [])
  }

  /** The labels of the sentinel entries, in generation order. */
  function ClosedLabels(es: seq<Entry>): seq<Reason>
    decreases |es|
  {
    if es == [] then []
    else
      var e := es[|es| - 1];
      ClosedLabels(es[..|es| - 1]) + (if e.Closed? then [e.reason] else [])
  }

  /** Each key once, at the place of its first occurrence. */
  function Dedup(ks: seq<SlotKey>): seq<SlotKey>
    decreases |ks|
  {
    if ks == [] then []
    else
      var d := Dedup(ks[..|ks| - 1]);
      var k := ks[|ks| - 1];
      if k in d then d else d + [k]
  }

  /** The label of the last slot entry whose key is `k`. */
  function LastLabel(es: seq<Entry>, k: SlotKey): Option<SlotLabel>
    decreases |es|
  {
    if es == [] then None
    else
      var e := es[|es| - 1];
      if e.Slot? && e.key == k then Some(e.display) else LastLabel(es[..|es| - 1], k)
  }

  /** The `foreach` pass over the entries: every slot is assigned into the map. */
  function Flatten(es: seq<Entry>): OrderedMap
    decreases |es|
  {
    if es == [] then []
    else
      var m := Flatten(es[..|es| - 1]);
      var e := es[|es| - 1];
      if e.Slot? then Put(m, e.key, e.display) else m
  }

  lemma {:induction false} DedupFacts(ks: seq<SlotKey>)
    ensures forall k :: k in Dedup(ks) <==> k in ks
    ensures Distinct(Dedup(ks))
    decreases |ks|
  {
    if ks != [] {
      var init := ks[..|ks| - 1];
      DedupFacts(init);
      assert ks == init + [ks[|ks| - 1]];
    }
  }

  /** A slot entry with key `k` exists exactly when `k` has a last label. */
  lemma {:induction false} LastLabelExists(es: seq<Entry>, k: SlotKey)
    ensures LastLabel(es, k).Some? <==> k in SlotKeys(es)
    decreases |es|
  {
    if es != [] {
      LastLabelExists(es[..|es| - 1], k);
    }
  }

  /**
   * The options map lists each slot key once, in the order the keys were
   * first generated, and gives each the label of the key's last slot.
   */
  lemma {:induction false} FlattenIsLastWriterMap(es: seq<Entry>)
    ensures KeysOf(Flatten(es)) == Dedup(SlotKeys(es))
    ensures Distinct(KeysOf(Flatten(es)))
    ensures forall j :: 0 <= j < |Flatten(es)| ==> LastLabel(es, Flatten(es)[j].0) == Some(Flatten(es)[j].1)
    decreases |es|
  {
    DedupFacts(SlotKeys(es));
    if es != [] {
      var init := es[..|es| - 1];
      var m := Flatten(init);
      var e := es[|es| - 1];
      FlattenIsLastWriterMap(init);
      if e.Slot? {
        PutFacts(m, e.key, e.display);
        assert SlotKeys(es) == SlotKeys(init) + [e.key];
        DedupFacts(SlotKeys(init));
        assert Dedup(SlotKeys(es)) == (if e.key in Dedup(SlotKeys(init)) then Dedup(SlotKeys(init)) else Dedup(SlotKeys(init)) + [e.key]) by {
          assert SlotKeys(es)[..|SlotKeys(es)| - 1] == SlotKeys(init);
        }
      } else {
        assert SlotKeys(es) == SlotKeys(init) + [];
        assert SlotKeys(es) == SlotKeys(init);
      }
    }
  }

  /** The map is empty exactly when no entry is a slot. */
  lemma FlattenEmptyIff(es: seq<Entry>)
    ensures Flatten(es) == [] <==> forall m :: 0 <= m < |es| ==> es[m].Closed?
  {
    FlattenIsLastWriterMap(es);
    DedupFacts(SlotKeys(es));
    AllClosedIff(es);
    if SlotKeys(es) != [] {
      assert SlotKeys(es)[0] in Dedup(SlotKeys(es));
    }
  }

  lemma {:induction false} AllClosedIff(es: seq<Entry>)
    ensures SlotKeys(es) == [] <==> forall m :: 0 <= m < |es| ==> es[m].Closed?
    decreases |es|
  {
    if es != [] {
      var init := es[..|es| - 1];
      AllClosedIff(init);
      if SlotKeys(es) == [] {
        assert SlotKeys(init) == [];
        forall m | 0 <= m < |es| ensures es[m].Closed? {
          if m < |es| - 1 { assert es[m] == init[m]; }
        }
      } else {
        if SlotKeys(init) == [] {
          assert !es[|es| - 1].Closed?;
        } else {
          var m :| 0 <= m < |init| && !init[m].Closed?;
          assert es[m] == init[m];
        }
      }
    }
  }

  /** The reasons of a concatenation are the reasons of its parts. */
  lemma {:induction false} ClosedLabelsAppend(a: seq<Entry>, b: seq<Entry>)
    ensures ClosedLabels(a + b) == ClosedLabels(a) + ClosedLabels(b)
    decreases |b|
  {
    if b == [] {
      assert a + b == a;
    } else {
      var init := b[..|b| - 1];
      ClosedLabelsAppend(a, init);
      assert (a + b)[..|a + b| - 1] == a + init;
    }
  }

  /** Slot entries carry no reason. */
  lemma {:induction false} ClosedLabelsOfSlots(es: seq<Entry>)
    requires forall m :: 0 <= m < |es| ==> es[m].Slot?
    ensures ClosedLabels(es) == []
    decreases |es|
  {
    if es != [] {
      ClosedLabelsOfSlots(es[..|es| - 1]);
    }
  }

  function ToChoices(m: OrderedMap): seq<Choice> {
    seq(|m|, j requires 0 <= j < |m| => Pickup(m[j].0, m[j].1))
  }

  /**
   * Splits the entries into the options map and the closed reasons. When no
   * entry is a slot, the options are the single placeholder and the order
   * review is to be suppressed; otherwise they are the flattened slots.
   */
  function Partition(es: seq<Entry>): (r: SlotResult)
    ensures r.closedReasons == ClosedLabels(es)
    ensures r.suppressReview <==> forall m :: 0 <= m < |es| ==> es[m].Closed?
    ensures r.suppressReview ==> r.options == [NoAvailablePickupTimes]
    ensures !r.suppressReview ==> |r.options| > 0 && forall j :: 0 <= j < |r.options| ==> r.options[j].Pickup?
    ensures !r.suppressReview ==> r.options == ToChoices(Flatten(es))
  {
    AllClosedIff(es);
    FlattenEmptyIff(es);
    if SlotKeys(es) == [] then SlotResult([NoAvailablePickupTimes], ClosedLabels(es), true)
    else SlotResult(ToChoices(Flatten(es)), ClosedLabels(es), false)
  }
}
