/** Go slices of strings: a backing array, an offset, a length and a capacity, and append on them. */
module Slices {

  /** A backing array, and the execution that allocated it; configuration arrays have none. */
  datatype Array = Array(cells: seq<string>, ofRun: bool, owner: nat)

  type Heap = seq<Array>

  datatype Slice = Slice(base: nat, offset: nat, length: nat, capacity: nat)

  predicate Valid(h: Heap, s: Slice) {
    s.base < |h| && s.length <= s.capacity && s.offset + s.capacity <= |h[s.base].cells|
  }

  function Contents(h: Heap, s: Slice): (r: seq<string>)
    requires Valid(h, s)
    ensures |r| == s.length
  {
    h[s.base].cells[s.offset..s.offset + s.length]
  }

  function Write(cells: seq<string>, at: nat, xs: seq<string>): (r: seq<string>)
    requires at + |xs| <= |cells|
    ensures |r| == |cells|
    ensures forall i :: 0 <= i < |r| ==> r[i] == if at <= i < at + |xs| then xs[i - at] else cells[i]
  {
    cells[..at] + xs + cells[at + |xs|..]
  }

  predicate Fits(s: Slice, xs: seq<string>) {
    s.length + |xs| <= s.capacity
  }

  function Alloc(h: Heap, run: nat, xs: seq<string>, spare: seq<string>): (r: (Heap, Slice)) {
    (h + [Array(xs + spare, true, run)], Slice(|h|, 0, |xs|, |xs| + |spare|))
  }

  /**
   append(s, xs...): in place if the capacity allows, otherwise into a new array; how much room a new array
   gets beyond its contents is the runtime's choice.
   */
  function Append(h: Heap, run: nat, s: Slice, xs: seq<string>, spare: seq<string>): (r: (Heap, Slice))
    requires Valid(h, s)
  {
    if Fits(s, xs)
    then (h[s.base := h[s.base].(cells := Write(h[s.base].cells, s.offset + s.length, xs))], s.(length := s.length + |xs|))
    else Alloc(h, run, Contents(h, s) + xs, spare)
  }

  /** What append returns holds the old contents and then the new ones. */
  lemma AppendContents(h: Heap, run: nat, s: Slice, xs: seq<string>, spare: seq<string>)
    requires Valid(h, s)
    ensures var (h', s') := Append(h, run, s, xs, spare);
            && Valid(h', s') && Contents(h', s') == Contents(h, s) + xs
            && (Fits(s, xs) ==> |h'| == |h| && s'.base == s.base)
            && (!Fits(s, xs) ==> h' == h + [h'[|h|]] && s'.base == |h| && h'[|h|].ofRun && h'[|h|].owner == run)
            && (forall a :: 0 <= a < |h| && a != s.base ==> h'[a] == h[a])
            && h'[s.base].ofRun == h[s.base].ofRun && h'[s.base].owner == h[s.base].owner
            && |h'[s.base].cells| == |h[s.base].cells|
  {
  }
}
