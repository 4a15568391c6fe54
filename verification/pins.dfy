/**
 * The pinned-sensors window: a short list of sensor keys ("CPU", "RAM", "GPU"
 * or anything else dropped on the window), one gauge per key, and the tick
 * that refreshes the gauges whose tag names a known sensor.
 */
module Pins {
  import opened Wrappers
  import opened Text

  /** At most this many keys can be pinned by dropping. */
  const MaxPins: nat := 3

  /** The keys the window recognises, in their canonical upper-case spelling. */
  const Known: seq<string> := ["CPU", "RAM", "GPU"]

  /** One gauge: the key it was created for, the caption it shows and its current value. */
  datatype Gauge = Gauge(tag: string, caption: string, value: real)

  /** The window's state: the `sensors` list and the gauges on the host panel, in order. */
  datatype Board = Board(sensors: seq<string>, gauges: seq<Gauge>)

  /** How a drop ended: blank key, key already in the list, list full, or pinned. */
  datatype AddOutcome = Blank | AlreadyPinned | Full | Pinned

  datatype Added = Added(board: Board, outcome: AddOutcome)

  /** The caption switch: a key naming a known sensor in any case shows its canonical name. */
  function Caption(key: string): (c: string)
    ensures Upper(key) in Known ==> c == Upper(key)
    ensures Upper(key) !in Known ==> c == key
  {
    match Upper(key)
      case "CPU" => "CPU"
      case "RAM" => "RAM"
      case "GPU" => "GPU"
      case _ => key
  }

  /** The tags of the gauges, in order. */
  function Tags(gs: seq<Gauge>): (r: seq<string>)
    ensures |r| == |gs|
    ensures forall i :: 0 <= i < |gs| ==> r[i] == gs[i].tag
  {
    seq(|gs|, i requires 0 <= i < |gs| => gs[i].tag)
  }

  predicate NoDuplicates<T(==)>(xs: seq<T>)
  {
    forall i, j :: 0 <= i < j < |xs| ==> xs[i] != xs[j]
  }

  /** A fresh gauge for a key: maximum 100, value 0, captioned by the switch. */
  function NewGauge(key: string): (g: Gauge)
    ensures g.tag == key && g.value == 0.0
  {
    Gauge(key, Caption(key), 0.0)
  }

  /** The internal add: a key that already has a gauge gets no second one. */
  function Install(gs: seq<Gauge>, key: string): (r: seq<Gauge>)
    ensures key in Tags(gs) ==> r == gs
    ensures key !in Tags(gs) ==> r == gs + [NewGauge(key)]
  {
    if exists i :: 0 <= i < |gs| && gs[i].tag == key then gs else gs + [NewGauge(key)]
  }

  /** The gauges built for a list of keys, one `Install` per key in order. */
  function Build(keys: seq<string>): (gs: seq<Gauge>)
    decreases |keys|
  {
    if |keys| == 0 then [] else Install(Build(keys[..|keys| - 1]), keys[|keys| - 1])
  }

  /** Installing a key adds its tag if it was missing and nothing else. */
  lemma InstallTags(gs: seq<Gauge>, key: string)
    ensures Tags(Install(gs, key)) == if key in Tags(gs) then Tags(gs) else Tags(gs) + [key]
  {
    if key !in Tags(gs) {
      assert Tags(gs + [NewGauge(key)]) == Tags(gs) + [key];
    }
  }

  /** The prefix of a duplicate-free sequence is duplicate-free, and its last element is new. */
  lemma NoDuplicatesInit<T>(xs: seq<T>)
    requires |xs| > 0 && NoDuplicates(xs)
    ensures NoDuplicates(xs[..|xs| - 1]) && xs[|xs| - 1] !in xs[..|xs| - 1]
  {
    var init := xs[..|xs| - 1];
    forall i, j | 0 <= i < j < |init| ensures init[i] != init[j] {
      assert init[i] == xs[i] && init[j] == xs[j];
    }
    forall i | 0 <= i < |init| ensures init[i] != xs[|xs| - 1] {
      assert init[i] == xs[i];
    }
  }

  /** Appending a new element keeps a sequence duplicate-free. */
  lemma AppendNew<T>(xs: seq<T>, x: T)
    requires NoDuplicates(xs) && x !in xs
    ensures NoDuplicates(xs + [x])
  {
    var ys := xs + [x];
    forall i, j | 0 <= i < j < |ys| ensures ys[i] != ys[j] {
      assert ys[i] == xs[i];
      if j < |xs| {
        assert ys[j] == xs[j];
      }
    }
  }

  /** The elements of `xs` at their first occurrence, in order: an element seen earlier is dropped. */
  function FirstOccurrences<T(==)>(xs: seq<T>): seq<T>
    decreases |xs|
  {
    if |xs| == 0 then []
    else
      var init := xs[..|xs| - 1];
      FirstOccurrences(init) + (if xs[|xs| - 1] in init then [] else [xs[|xs| - 1]])
  }

  /** `Build` yields one gauge per distinct key, each tag once, and nothing else. */
  lemma {:induction false} BuildTags(keys: seq<string>)
    ensures NoDuplicates(Tags(Build(keys)))
    ensures forall k :: k in Tags(Build(keys)) <==> k in keys
    ensures NoDuplicates(keys) ==> Tags(Build(keys)) == keys
    decreases |keys|
  {
    if |keys| > 0 {
      var init := keys[..|keys| - 1];
      var last := keys[|keys| - 1];
      BuildTags(init);
      assert keys == init + [last];
      var gs := Build(init);
      assert Build(keys) == Install(gs, last);
      InstallTags(gs, last);
      if last !in Tags(gs) {
        AppendNew(Tags(gs), last);
      }
      if NoDuplicates(keys) {
        NoDuplicatesInit(keys);
      }
    }
  }

  /** The gauges follow the keys: each key gets its gauge at its first occurrence, later copies none. */
  lemma {:induction false} BuildInKeyOrder(keys: seq<string>)
    ensures Tags(Build(keys)) == FirstOccurrences(keys)
    decreases |keys|
  {
    if |keys| > 0 {
      var init := keys[..|keys| - 1];
      var last := keys[|keys| - 1];
      var gs := Build(init);
      BuildInKeyOrder(init);
      BuildTags(init);
      assert Build(keys) == Install(gs, last);
      InstallTags(gs, last);
      assert last in Tags(gs) <==> last in init;
    }
  }

  /** The window as constructed: a null list is an empty one; the list itself is not checked. */
  function Open(keys: Option<seq<string>>): (b: Board)
    ensures b.sensors == keys.GetOr([])
    ensures NoDuplicates(Tags(b.gauges))
    ensures forall k :: k in Tags(b.gauges) <==> k in b.sensors
  {
    BuildTags(keys.GetOr([]));
    Board(keys.GetOr([]), Build(keys.GetOr([])))
  }

  /** A well-formed pin list: at most three keys, none blank, none twice, one gauge per key in list order. */
  ghost predicate Valid(b: Board)
  {
    && |b.sensors| <= MaxPins
    && NoDuplicates(b.sensors)
    && (forall i :: 0 <= i < |b.sensors| ==> !IsNullOrWhiteSpace(Some(b.sensors[i])))
    && Tags(b.gauges) == b.sensors
  }

  /** A list that is already well formed opens into a valid window. */
  lemma OpenValid(keys: seq<string>)
    requires |keys| <= MaxPins && NoDuplicates(keys)
    requires forall i :: 0 <= i < |keys| ==> !IsNullOrWhiteSpace(Some(keys[i]))
    ensures Valid(Open(Some(keys)))
  {
    BuildTags(keys);
  }

  /** Dropping a key on the window. */
  function Add(b: Board, key: Option<string>): (r: Added)
    ensures IsNullOrWhiteSpace(key) ==> r == Added(b, Blank)
    ensures !IsNullOrWhiteSpace(key) && key.value in b.sensors ==> r == Added(b, AlreadyPinned)
    ensures !IsNullOrWhiteSpace(key) && key.value !in b.sensors && |b.sensors| >= MaxPins ==> r == Added(b, Full)
    ensures r.outcome == Pinned <==> !IsNullOrWhiteSpace(key) && key.value !in b.sensors && |b.sensors| < MaxPins
    ensures r.outcome == Pinned ==> r.board.sensors == b.sensors + [key.value]
    ensures r.outcome == Pinned && key.value !in Tags(b.gauges) ==> r.board.gauges == b.gauges + [NewGauge(key.value)]
    ensures r.outcome == Pinned && key.value in Tags(b.gauges) ==> r.board.gauges == b.gauges
    ensures r.outcome != Pinned ==> r.board == b
  {
    if IsNullOrWhiteSpace(key) then Added(b, Blank)
    else if key.value in b.sensors then Added(b, AlreadyPinned)
    else if |b.sensors| >= MaxPins then Added(b, Full)
    else Added(Board(b.sensors + [key.value], Install(b.gauges, key.value)), Pinned)
  }

  /** The position of the first `x` in `xs`. */
  function IndexOf<T(==)>(xs: seq<T>, x: T): (i: nat)
    requires x in xs
    ensures i < |xs| && xs[i] == x
    ensures forall j :: 0 <= j < i ==> xs[j] != x
  {
    if xs[0] == x then 0 else 1 + IndexOf(xs[1..], x)
  }

  /** `List.Remove`: drop the first occurrence of `x`, if any. */
  function RemoveFirst<T(==)>(xs: seq<T>, x: T): (r: seq<T>)
    ensures x !in xs ==> r == xs
    ensures x in xs ==> r == xs[..IndexOf(xs, x)] + xs[IndexOf(xs, x) + 1..]
  {
    if x in xs then xs[..IndexOf(xs, x)] + xs[IndexOf(xs, x) + 1..] else xs
  }

  /** `List.Remove` takes away exactly one copy of a present element. */
  lemma RemoveFirstCount<T>(xs: seq<T>, x: T)
    ensures x in xs ==> multiset(RemoveFirst(xs, x)) == multiset(xs) - multiset{x}
    ensures x !in xs ==> multiset(RemoveFirst(xs, x)) == multiset(xs)
  {
    if x in xs {
      var i := IndexOf(xs, x);
      assert xs == xs[..i] + [x] + xs[i + 1..];
    }
  }

  /** Right-clicking a gauge: a null or empty tag does nothing; otherwise the first gauge with that tag
      goes, and the first copy of the tag leaves the list. */
  function Remove(b: Board, tag: Option<string>): (r: Board)
    ensures IsNullOrEmpty(tag) ==> r == b
    ensures !IsNullOrEmpty(tag) && tag.value !in Tags(b.gauges) ==> r == b
    ensures !IsNullOrEmpty(tag) && tag.value in Tags(b.gauges) ==>
              var i := IndexOf(Tags(b.gauges), tag.value);
              && r.sensors == RemoveFirst(b.sensors, tag.value)
              && r.gauges == b.gauges[..i] + b.gauges[i + 1..]
              && Tags(r.gauges) == RemoveFirst(Tags(b.gauges), tag.value)
  {
    if IsNullOrEmpty(tag) then b
    else
      var t := tag.value;
      if t in Tags(b.gauges) then
        var i := IndexOf(Tags(b.gauges), t);
        var gs := b.gauges[..i] + b.gauges[i + 1..];
        assert Tags(gs) == Tags(b.gauges)[..i] + Tags(b.gauges)[i + 1..];
        Board(RemoveFirst(b.sensors, t), gs)
      else b
  }

  /** Adding keeps a valid list valid. */
  lemma AddKeepsValid(b: Board, key: Option<string>)
    requires Valid(b)
    ensures Valid(Add(b, key).board)
  {
    var r := Add(b, key);
    if r.outcome == Pinned {
      var k := key.value;
      assert k !in Tags(b.gauges);
      assert Tags(b.gauges + [NewGauge(k)]) == Tags(b.gauges) + [k];
    }
  }

  /** Deleting one element of a duplicate-free sequence leaves it duplicate-free. */
  lemma DeleteKeepsNoDuplicates<T>(xs: seq<T>, i: nat)
    requires i < |xs| && NoDuplicates(xs)
    ensures NoDuplicates(xs[..i] + xs[i + 1..])
  {
    var ys := xs[..i] + xs[i + 1..];
    forall a, c | 0 <= a < c < |ys| ensures ys[a] != ys[c] {
      var a' := if a < i then a else a + 1;
      var c' := if c < i then c else c + 1;
      assert ys[a] == xs[a'] && ys[c] == xs[c'];
    }
  }

  /** Removing keeps a valid list valid. */
  lemma RemoveKeepsValid(b: Board, tag: Option<string>)
    requires Valid(b)
    ensures Valid(Remove(b, tag))
  {
    if !IsNullOrEmpty(tag) && tag.value in Tags(b.gauges) {
      var i := IndexOf(b.sensors, tag.value);
      var r := Remove(b, tag);
      DeleteKeepsNoDuplicates(b.sensors, i);
      forall j | 0 <= j < |r.sensors| ensures !IsNullOrWhiteSpace(Some(r.sensors[j])) {
        assert r.sensors[j] == b.sensors[if j < i then j else j + 1];
      }
    }
  }

  /** Pinning a key and then unpinning it restores the window exactly. */
  lemma AddThenRemove(b: Board, key: Option<string>)
    requires Valid(b)
    requires Add(b, key).outcome == Pinned
    ensures Remove(Add(b, key).board, key) == b
  {
    var k := key.value;
    var a := Add(b, key).board;
    assert k !in Tags(b.gauges);
    var gs := b.gauges + [NewGauge(k)];
    assert a.gauges == gs;
    assert Tags(gs) == b.sensors + [k];
    assert IndexOf(b.sensors + [k], k) == |b.sensors|;
    assert !IsNullOrEmpty(key);
    assert (b.sensors + [k])[..|b.sensors|] == b.sensors;
    assert gs[..|b.gauges|] == b.gauges;
  }

  /** The value a tick writes into a gauge: the tag is compared case-sensitively. */
  function Dispatch(g: Gauge, cpu: Option<real>, ram: Option<real>, gpu: Option<real>): Gauge
  {
    if g.tag == "CPU" then g.(value := cpu.GetOr(0.0))
    else if g.tag == "RAM" then g.(value := ram.GetOr(0.0))
    else if g.tag == "GPU" then g.(value := gpu.GetOr(0.0))
    else g
  }

  /** One tick of the pinned window, given this tick's CPU load, RAM use and GPU load. */
  function Refresh(b: Board, cpu: Option<real>, ram: Option<real>, gpu: Option<real>): (r: Board)
    ensures r.sensors == b.sensors && |r.gauges| == |b.gauges|
    ensures Tags(r.gauges) == Tags(b.gauges)
    ensures forall i :: 0 <= i < |b.gauges| ==> r.gauges[i].caption == b.gauges[i].caption
    ensures forall i :: 0 <= i < |b.gauges| && b.gauges[i].tag !in Known ==> r.gauges[i] == b.gauges[i]
    ensures forall i :: 0 <= i < |b.gauges| && b.gauges[i].tag == "CPU" ==> r.gauges[i].value == cpu.GetOr(0.0)
    ensures forall i :: 0 <= i < |b.gauges| && b.gauges[i].tag == "RAM" ==> r.gauges[i].value == ram.GetOr(0.0)
    ensures forall i :: 0 <= i < |b.gauges| && b.gauges[i].tag == "GPU" ==> r.gauges[i].value == gpu.GetOr(0.0)
  {
    b.(gauges := seq(|b.gauges|, i requires 0 <= i < |b.gauges| => Dispatch(b.gauges[i], cpu, ram, gpu)))
  }

  /** A second refresh with the same readings changes nothing. */
  lemma RefreshIdempotent(b: Board, cpu: Option<real>, ram: Option<real>, gpu: Option<real>)
    ensures Refresh(Refresh(b, cpu, ram, gpu), cpu, ram, gpu) == Refresh(b, cpu, ram, gpu)
  {
  }

  /** A key dropped as "cpu" is captioned CPU but no tick ever updates its gauge. */
  lemma LowerCaseCpuNeverUpdated(b: Board, cpu: Option<real>, ram: Option<real>, gpu: Option<real>)
    requires Valid(b)
    requires Add(b, Some("cpu")).outcome == Pinned
    ensures var a := Add(b, Some("cpu")).board;
            var g := a.gauges[|a.gauges| - 1];
            g.tag == "cpu" && g.caption == "CPU" &&
            Refresh(a, cpu, ram, gpu).gauges[|a.gauges| - 1] == g
  {
    assert "cpu" !in Tags(b.gauges);
    assert Upper("cpu") == "CPU";
    assert "cpu" !in Known;
  }

  /** A key listed twice gets a single gauge. */
  lemma BuildTwice(k: string)
    ensures Build([k, k]) == [NewGauge(k)]
  {
    assert [k, k][..1] == [k];
    assert [k][..0] == [];
    assert Build([]) == [];
    assert k !in Tags([]);
    assert Install([], k) == [] + [NewGauge(k)];
    var one := Build([k]);
    assert one == Install(Build([]), k);
    assert one == [NewGauge(k)];
    assert one[0].tag == k;
  }

  /** Unpinning the one gauge of a list that holds its key twice keeps one copy of the key. */
  lemma RemoveSoleGauge(k: string, g: Gauge)
    requires k != "" && g.tag == k
    ensures Remove(Board([k, k], [g]), Some(k)) == Board([k], [])
  {
    assert Tags([g]) == [k];
    assert IndexOf([k], k) == 0;
    assert IndexOf([k, k], k) == 0;
    assert RemoveFirst([k, k], k) == [k];
    assert [g][..0] + [g][1..] == [];
  }

  /** Opening with a key twice and then unpinning it leaves the key in the list with no gauge,
      so it can never be pinned again. */
  lemma DuplicateKeyStrands(k: string)
    requires k != ""
    ensures var b := Remove(Open(Some([k, k])), Some(k));
            b.sensors == [k] && b.gauges == [] &&
            Add(b, Some(k)).outcome != Pinned
  {
    BuildTwice(k);
    assert Open(Some([k, k])) == Board([k, k], [NewGauge(k)]);
    RemoveSoleGauge(k, NewGauge(k));
    assert k in [k];
  }
}
