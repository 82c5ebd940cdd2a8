/**
 * The CPU KV cache (`cpu_reference.rs`): a byte buffer that behaves as a map from (layer, slot) to a key and a value.
 */
module KvStorage {
  import opened Basics
  import opened KvLayout

  newtype Byte = x: int | 0 <= x < 256

  /** An `f32` as its four native-endian bytes; storage never looks inside. */
  datatype F32 = F32(b0: Byte, b1: Byte, b2: Byte, b3: Byte)

  type Vec = seq<F32>

  datatype Entry = Entry(key: Vec, value: Vec)

  /** Entries indexed by layer and slot. */
  type Store = seq<seq<Entry>>

  predicate InStore(store: Store, layer: nat, slot: nat) {
    layer < |store| && slot < |store[layer]|
  }

  function Put(store: Store, layer: nat, slot: nat, entry: Entry): Store
    requires InStore(store, layer, slot)
  {
    store[layer := store[layer][slot := entry]]
  }

  datatype StorageError = Unsupported | WidthMismatch | Layout(error: LayoutError) | GatherOverflow

  /** Byte k of the native image of a vector. */
  function ByteOf(values: Vec, k: int): Byte
    requires 0 <= k < 4 * |values|
  {
    var v := values[k / 4];
    if k % 4 == 0 then v.b0 else if k % 4 == 1 then v.b1 else if k % 4 == 2 then v.b2 else v.b3
  }

  /** The n words stored from byte `start` on. */
  function Words(bytes: seq<Byte>, start: nat, n: nat): (v: Vec)
    requires start + 4 * n <= |bytes|
    ensures |v| == n
  {
    seq(n, i requires 0 <= i < n =>
        F32(bytes[start + 4 * i], bytes[start + 4 * i + 1], bytes[start + 4 * i + 2], bytes[start + 4 * i + 3]))
  }

  /** The buffer after the native images of the values replaced the bytes from `start` on. */
  ghost predicate Overwritten(before: seq<Byte>, after: seq<Byte>, start: nat, values: Vec)
    requires start + 4 * |values| <= |before| == |after|
  {
    forall j :: 0 <= j < |after| ==>
      after[j] == if start <= j < start + 4 * |values| then ByteOf(values, j - start) else before[j]
  }

  method CopyWords(data: array<Byte>, start: nat, values: Vec)
    requires start + 4 * |values| <= data.Length
    modifies data
    ensures Overwritten(old(data[..]), data[..], start, values)
  {
    for i := 0 to |values|
      invariant forall j :: 0 <= j < data.Length ==>
        data[j] == if start <= j < start + 4 * i then ByteOf(values, j - start) else old(data[j])
    {
      var at := start + 4 * i;
      data[at], data[at + 1], data[at + 2], data[at + 3] := values[i].b0, values[i].b1, values[i].b2, values[i].b3;
    }
  }

  lemma Quarters(start: nat, n: nat)
    ensures (start + 4 * n - start) % 4 == 0 && (start + 4 * n - start) / 4 == n
  {
  }

  lemma WordWritten(before: seq<Byte>, after: seq<Byte>, start: nat, values: Vec, i: nat)
    requires start + 4 * |values| <= |before| == |after| && Overwritten(before, after, start, values) && i < |values|
    ensures WordAt(after, start, i, values[i])
  {
    var at := start + 4 * i;
    assert after[at] == ByteOf(values, 4 * i) && after[at + 1] == ByteOf(values, 4 * i + 1);
    assert after[at + 2] == ByteOf(values, 4 * i + 2) && after[at + 3] == ByteOf(values, 4 * i + 3);
  }

  lemma WordsWritten(before: seq<Byte>, after: seq<Byte>, start: nat, values: Vec)
    requires start + 4 * |values| <= |before| == |after| && Overwritten(before, after, start, values)
    ensures Words(after, start, |values|) == values
  {
    forall i | 0 <= i < |values|
      ensures WordAt(after, start, i, values[i])
    {
      WordWritten(before, after, start, values, i);
    }
    WordsAre(after, start, values);
  }

  lemma WordsAre(bytes: seq<Byte>, start: nat, values: Vec)
    requires start + 4 * |values| <= |bytes| && forall i :: 0 <= i < |values| ==> WordAt(bytes, start, i, values[i])
    ensures Words(bytes, start, |values|) == values
  {
  }

  ghost predicate WordAt(bytes: seq<Byte>, start: nat, i: nat, value: F32) {
    var at := start + 4 * i;
    at + 4 <= |bytes| && F32(bytes[at], bytes[at + 1], bytes[at + 2], bytes[at + 3]) == value
  }

  lemma WordsKept(before: seq<Byte>, after: seq<Byte>, start: nat, values: Vec, other: nat, n: nat)
    requires start + 4 * |values| <= |before| == |after| && Overwritten(before, after, start, values)
    requires other + 4 * n <= |before| && (other + 4 * n <= start || start + 4 * |values| <= other)
    ensures Words(after, other, n) == Words(before, other, n)
  {
  }

  /** Ranges of different coordinates do not meet. */
  lemma RangesApart(l: Layout, a: Coord, b: Coord)
    requires Nested(l) && InRange(l, a) && InRange(l, b) && a != b
    ensures Start(l, a) + TokenBytes(l, a.tensor) <= Start(l, b) || Start(l, b) + TokenBytes(l, b.tensor) <= Start(l, a)
  {
    RangeExact(l, a);
    RangeExact(l, b);
    var x := Max(Start(l, a), Start(l, b));
    if x < Start(l, a) + TokenBytes(l, a.tensor) && x < Start(l, b) + TokenBytes(l, b.tensor) {
      RangesDisjoint(l, a, x);
      RangesDisjoint(l, b, x);
      assert false;
    }
  }

  /** Two (layer, slot) pairs are the same coordinate only if they are the same pair. */
  lemma SlotCoordInjective(l: Layout, layer: nat, tensor: nat, slot: nat, layer': nat, tensor': nat, slot': nat)
    requires l.runtime.pageSize > 0 && (layer, tensor, slot) != (layer', tensor', slot')
    ensures SlotCoord(l, layer, tensor, slot) != SlotCoord(l, layer', tensor', slot')
  {
  }

  class CpuReferenceKvCache {
    const layout: Layout
    const data: array<Byte>
    const keyWidth: nat
    const valueWidth: nat

    ghost predicate Valid() {
      && Nested(layout)
      && layout.runtime.kvTensorsPerToken >= 2
      && TokenBytes(layout, 0) == 4 * keyWidth
      && TokenBytes(layout, 1) == 4 * valueWidth
      && data.Length == layout.totalByteLen
    }

    ghost function Width(tensor: nat): nat {
      if tensor == 0 then keyWidth else valueWidth
    }

    /** Where the row of a tensor starts, for in-range layers and slots. */
    ghost function RowStart(layer: nat, tensor: nat, slot: nat): (start: nat)
      requires Valid() && layer < layout.runtime.numLayers && tensor < 2 && slot < layout.slotCount
      ensures start + 4 * Width(tensor) <= data.Length
      ensures TensorSlotByteRange(layout, layer, tensor, slot) == Ok(Range(start, start + 4 * Width(tensor)))
    {
      SlotRanges(layout, layer, tensor, slot);
      RangeExact(layout, SlotCoord(layout, layer, tensor, slot));
      Start(layout, SlotCoord(layout, layer, tensor, slot))
    }

    ghost function Row(bytes: seq<Byte>, layer: nat, tensor: nat, slot: nat): Vec
      requires Valid() && |bytes| == data.Length && layer < layout.runtime.numLayers && tensor < 2
               && slot < layout.slotCount
    {
      Words(bytes, RowStart(layer, tensor, slot), Width(tensor))
    }

    ghost function EntryOf(bytes: seq<Byte>, layer: nat, slot: nat): Entry
      requires Valid() && |bytes| == data.Length && layer < layout.runtime.numLayers && slot < layout.slotCount
    {
      Entry(Row(bytes, layer, 0, slot), Row(bytes, layer, 1, slot))
    }

    ghost function Entries(bytes: seq<Byte>): Store
      requires Valid() && |bytes| == data.Length
    {
      seq(layout.runtime.numLayers, l requires 0 <= l < layout.runtime.numLayers =>
        seq(layout.slotCount, s requires 0 <= s < layout.slotCount => EntryOf(bytes, l, s)))
    }

    /** The cache as a map from (layer, slot) to the stored key and value. */
    ghost function View(): Store
      requires Valid()
      reads data
    {
      Entries(data[..])
    }

    constructor (layout: Layout, keyWidth: nat, valueWidth: nat)
      requires Accepted(layout) && layout.runtime.kvTensorsPerToken >= 2
      requires TokenBytes(layout, 0) == 4 * keyWidth && TokenBytes(layout, 1) == 4 * valueWidth
      ensures Valid() && this.layout == layout && this.keyWidth == keyWidth && this.valueWidth == valueWidth
      ensures fresh(data) && forall j :: 0 <= j < data.Length ==> data[j] == 0
    {
      this.layout, this.keyWidth, this.valueWidth := layout, keyWidth, valueWidth;
      data := new Byte[layout.totalByteLen](_ => 0);
      AcceptedNested(layout);
    }

    static method Create(layout: Layout) returns (r: Result<CpuReferenceKvCache, StorageError>)
      requires Accepted(layout)
      ensures r.Ok? <==> layout.runtime.dtype == Float32 && layout.runtime.kvTensorsPerToken >= 2
                         && TokenBytes(layout, 0) % 4 == 0 && TokenBytes(layout, 1) % 4 == 0
      ensures r.Ok? ==> fresh(r.value) && fresh(r.value.data) && r.value.Valid() && r.value.layout == layout
    {
      if layout.runtime.dtype != Float32 {
        return Err(Unsupported);
      }
      var keyBytes := TensorTokenSizeBytes(layout, 0);
      var valueBytes := TensorTokenSizeBytes(layout, 1);
      AcceptedNested(layout);
      if keyBytes.Err? || valueBytes.Err? {
        return Err(Unsupported);
      }
      if keyBytes.value % 4 != 0 || valueBytes.value % 4 != 0 {
        return Err(Unsupported);
      }
      var cache := new CpuReferenceKvCache(layout, keyBytes.value / 4, valueBytes.value / 4);
      return Ok(cache);
    }

    /** After overwriting one row, the other rows are as they were. */
    lemma RowKept(before: seq<Byte>, after: seq<Byte>, layer: nat, tensor: nat, slot: nat, values: Vec,
                  layer': nat, tensor': nat, slot': nat)
      requires Valid() && |before| == |after| == data.Length
      requires layer < layout.runtime.numLayers && tensor < 2 && slot < layout.slotCount
      requires layer' < layout.runtime.numLayers && tensor' < 2 && slot' < layout.slotCount
      requires |values| == Width(tensor) && (layer, tensor, slot) != (layer', tensor', slot')
      requires Overwritten(before, after, RowStart(layer, tensor, slot), values)
      ensures Row(after, layer', tensor', slot') == Row(before, layer', tensor', slot')
    {
      SlotRanges(layout, layer, tensor, slot);
      SlotRanges(layout, layer', tensor', slot');
      SlotCoordInjective(layout, layer, tensor, slot, layer', tensor', slot');
      RangesApart(layout, SlotCoord(layout, layer, tensor, slot), SlotCoord(layout, layer', tensor', slot'));
      WordsKept(before, after, RowStart(layer, tensor, slot), values, RowStart(layer', tensor', slot'), Width(tensor'));
    }

    /** Overwriting the key row and then the value row of a slot replaces its entry and nothing else. */
    lemma EntryWritten(before: seq<Byte>, mid: seq<Byte>, after: seq<Byte>, layer: nat, slot: nat, key: Vec, value: Vec)
      requires Valid() && |before| == |mid| == |after| == data.Length
      requires layer < layout.runtime.numLayers && slot < layout.slotCount && |key| == keyWidth && |value| == valueWidth
      requires Overwritten(before, mid, RowStart(layer, 0, slot), key)
      requires Overwritten(mid, after, RowStart(layer, 1, slot), value)
      ensures Entries(after) == Put(Entries(before), layer, slot, Entry(key, value))
    {
      WordsWritten(before, mid, RowStart(layer, 0, slot), key);
      WordsWritten(mid, after, RowStart(layer, 1, slot), value);
      RowKept(mid, after, layer, 1, slot, value, layer, 0, slot);
      forall l: nat, s: nat | l < layout.runtime.numLayers && s < layout.slotCount
        ensures EntryOf(after, l, s) == if (l, s) == (layer, slot) then Entry(key, value) else EntryOf(before, l, s)
      {
        if (l, s) != (layer, slot) {
          RowKept(before, mid, layer, 0, slot, key, l, 0, s);
          RowKept(before, mid, layer, 0, slot, key, l, 1, s);
          RowKept(mid, after, layer, 1, slot, value, l, 0, s);
          RowKept(mid, after, layer, 1, slot, value, l, 1, s);
        }
      }
      EntriesPut(before, after, layer, slot, Entry(key, value));
    }

    lemma EntriesPut(before: seq<Byte>, after: seq<Byte>, layer: nat, slot: nat, entry: Entry)
      requires Valid() && |before| == |after| == data.Length && layer < layout.runtime.numLayers
               && slot < layout.slotCount
      requires forall l: nat, s: nat :: l < layout.runtime.numLayers && s < layout.slotCount ==>
                 EntryOf(after, l, s) == if (l, s) == (layer, slot) then entry else EntryOf(before, l, s)
      ensures Entries(after) == Put(Entries(before), layer, slot, entry)
    {
      var put := Put(Entries(before), layer, slot, entry);
      forall l | 0 <= l < layout.runtime.numLayers
        ensures Entries(after)[l] == put[l]
      {
        forall s | 0 <= s < layout.slotCount
          ensures Entries(after)[l][s] == put[l][s]
        {
          assert Entries(after)[l][s] == EntryOf(after, l, s);
        }
      }
    }

    /** A write updates exactly one entry of the map, or is rejected and changes nothing. */
    method Write(layer: nat, slot: nat, key: Vec, value: Vec) returns (r: Result<(), StorageError>)
      requires Valid()
      modifies data
      ensures r.Ok? <==>
                |key| == keyWidth && |value| == valueWidth && layer < layout.runtime.numLayers
                && slot < layout.slotCount
      ensures View() == if r.Ok? then Put(old(View()), layer, slot, Entry(key, value)) else old(View())
    {
      if |key| != keyWidth || |value| != valueWidth {
        return Err(WidthMismatch);
      }
      SlotRanges(layout, layer, 0, slot);
      SlotRanges(layout, layer, 1, slot);
      var keyRange := TensorSlotByteRange(layout, layer, 0, slot);
      if keyRange.Err? {
        return Err(StorageError.Layout(keyRange.error));
      }
      // the value range of a slot exists whenever its key range does
      var valueRange := TensorSlotByteRange(layout, layer, 1, slot);
      ghost var before := data[..];
      ghost var starts := (RowStart(layer, 0, slot), RowStart(layer, 1, slot));
      CopyWords(data, keyRange.value.start, key);
      ghost var mid := data[..];
      CopyWords(data, valueRange.value.start, value);
      EntryWritten(before, mid, data[..], layer, slot, key, value);
      return Ok(());
    }

    /** A gather returns the stored rows of the listed slots, in order, one after the other. */
    method Gather(layer: nat, slots: seq<nat>) returns (r: Result<(Vec, Vec), StorageError>)
      requires Valid()
      ensures r.Ok? <==>
                GatherFits(slots, keyWidth, valueWidth)
                && forall i :: 0 <= i < |slots| ==> InStore(View(), layer, slots[i])
      ensures r.Ok? ==> r.value == (Keys(View(), layer, slots), Values(View(), layer, slots))
    {
      if CheckedMul(|slots|, keyWidth).None? || CheckedMul(|slots|, valueWidth).None? {
        return Err(GatherOverflow);
      }
      r := GatherRows(layer, slots, View());
    }

    method GatherRows(layer: nat, slots: seq<nat>, ghost view: Store) returns (r: Result<(Vec, Vec), StorageError>)
      requires Valid() && view == View()
      ensures r.Ok? <==> forall i :: 0 <= i < |slots| ==> InStore(view, layer, slots[i])
      ensures r.Ok? ==> r.value == (Keys(view, layer, slots), Values(view, layer, slots))
    {
      var keys, values := [], [];
      for i := 0 to |slots|
        invariant forall j :: 0 <= j < i ==> InStore(view, layer, slots[j])
        invariant keys == Keys(view, layer, slots[..i]) && values == Values(view, layer, slots[..i])
      {
        var row := ReadEntry(layer, slots[i], view);
        if row.Err? {
          return Err(row.error);
        }
        KeysNext(view, layer, slots, i);
        keys, values := keys + row.value.key, values + row.value.value;
      }
      assert slots[..|slots|] == slots;
      return Ok((keys, values));
    }

    method ReadEntry(layer: nat, slot: nat, ghost view: Store) returns (r: Result<Entry, StorageError>)
      requires Valid() && view == View()
      ensures r.Ok? <==> InStore(view, layer, slot)
      ensures r.Ok? ==> r.value == view[layer][slot]
    {
      var key := ReadRow(layer, 0, slot);
      var value := ReadRow(layer, 1, slot);
      if key.Err? {
        return Err(key.error);
      }
      EntryAt(data[..], layer, slot);
      return Ok(Entry(key.value, value.value));
    }

    lemma EntryAt(bytes: seq<Byte>, layer: nat, slot: nat)
      requires Valid() && |bytes| == data.Length && layer < layout.runtime.numLayers && slot < layout.slotCount
      ensures InStore(Entries(bytes), layer, slot)
      ensures Entries(bytes)[layer][slot] == EntryOf(bytes, layer, slot)
    {
    }

    lemma RowRange(layer: nat, tensor: nat, slot: nat)
      requires Valid() && tensor < 2
      ensures TensorSlotByteRange(layout, layer, tensor, slot).Ok? <==>
                layer < layout.runtime.numLayers && slot < layout.slotCount
    {
      SlotRanges(layout, layer, tensor, slot);
    }

    lemma RowReads(bytes: seq<Byte>, layer: nat, tensor: nat, slot: nat)
      requires Valid() && |bytes| == data.Length && layer < layout.runtime.numLayers && tensor < 2
               && slot < layout.slotCount
      ensures TensorSlotByteRange(layout, layer, tensor, slot).Ok?
      ensures var range := TensorSlotByteRange(layout, layer, tensor, slot).value;
              && range.start <= range.end <= |bytes| && (range.end - range.start) % 4 == 0
              && Words(bytes, range.start, (range.end - range.start) / 4) == Row(bytes, layer, tensor, slot)
    {
      Quarters(RowStart(layer, tensor, slot), Width(tensor));
    }

    method ReadRow(layer: nat, tensor: nat, slot: nat) returns (r: Result<Vec, StorageError>)
      requires Valid() && tensor < 2
      ensures r.Ok? <==> layer < layout.runtime.numLayers && slot < layout.slotCount
      ensures r.Ok? ==> r.value == Row(data[..], layer, tensor, slot)
    {
      RowRange(layer, tensor, slot);
      var range := TensorSlotByteRange(layout, layer, tensor, slot);
      if range.Err? {
        return Err(StorageError.Layout(range.error));
      }
      RowReads(data[..], layer, tensor, slot);
      var words := ReadWords(range.value);
      return Ok(words);
    }

    method ReadWords(range: Range) returns (words: Vec)
      requires range.start <= range.end <= data.Length && (range.end - range.start) % 4 == 0
      ensures words == Words(data[..], range.start, (range.end - range.start) / 4)
    {
      words := [];
      var n := (range.end - range.start) / 4;
      for i := 0 to n
        invariant words == Words(data[..], range.start, i)
      {
        var at := range.start + 4 * i;
        words := words + [F32(data[at], data[at + 1], data[at + 2], data[at + 3])];
      }
    }
  }

  predicate GatherFits(slots: seq<nat>, keyWidth: nat, valueWidth: nat) {
    |slots| * keyWidth <= USIZE_MAX && |slots| * valueWidth <= USIZE_MAX
  }

  /** The stored keys of the listed slots, in order, one after the other; likewise the values. */
  ghost function Keys(store: Store, layer: nat, slots: seq<nat>): Vec
    requires forall i :: 0 <= i < |slots| ==> InStore(store, layer, slots[i])
  {
    if slots == [] then [] else
    var last := slots[|slots| - 1];
    assert InStore(store, layer, last);
    Keys(store, layer, slots[..|slots| - 1]) + store[layer][last].key
  }

  ghost function Values(store: Store, layer: nat, slots: seq<nat>): Vec
    requires forall i :: 0 <= i < |slots| ==> InStore(store, layer, slots[i])
  {
    if slots == [] then [] else
    var last := slots[|slots| - 1];
    assert InStore(store, layer, last);
    Values(store, layer, slots[..|slots| - 1]) + store[layer][last].value
  }

  lemma KeysNext(store: Store, layer: nat, slots: seq<nat>, i: nat)
    requires i < |slots| && forall j :: 0 <= j <= i ==> InStore(store, layer, slots[j])
    ensures Keys(store, layer, slots[..i + 1]) == Keys(store, layer, slots[..i]) + store[layer][slots[i]].key
    ensures Values(store, layer, slots[..i + 1]) == Values(store, layer, slots[..i]) + store[layer][slots[i]].value
  {
    assert slots[..i + 1][..i] == slots[..i];
  }
}
