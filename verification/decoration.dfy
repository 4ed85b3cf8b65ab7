/** Border decorations: what a caller may put in one of the three slots
    (left/top, centre, right/bottom) of an edge, and the text each yields. */
module Decoration {
  import opened Text

  datatype Option<T> = None | Some(value: T)

  /** The four kinds of decoration a caller may supply. */
  datatype Content =
    | Lit(s: Text)                           // a string
    | Lazy(produce: () -> Text)              // func() string
    | Sized(f: (int, Text) -> Text)          // func(size int, middle string) string
    | PerRow(g: (int, int, Text) -> Text)    // func(row, height int, middle string) string

  /** The slots of one edge: entry k, when present, decorates position k. */
  type Slots = seq<Option<Content>>

  /** Which reading of the source a definition follows: the code as it is
      written, or the behaviour its test tables expect where the two part. */
  datatype Reading = AsWritten | Intended

  /** The text slot `k` contributes to an edge of `size` cells whose fill is
      `middle`. A missing slot and a per-row transformer contribute nothing. */
  function SlotText(slots: Slots, k: nat, size: int, middle: Text): (t: Text)
    ensures k >= |slots| || slots[k].None? || slots[k].value.PerRow? ==> t == []
    ensures k < |slots| && slots[k].Some? && slots[k].value.Lit? ==> t == slots[k].value.s
    ensures k < |slots| && slots[k].Some? && slots[k].value.Lazy? ==> t == slots[k].value.produce()
    ensures k < |slots| && slots[k].Some? && slots[k].value.Sized? ==> t == slots[k].value.f(size, middle)
  {
    if k >= |slots| then []
    else match slots[k]
      case None => []
      case Some(c) =>
        match c
        case Lit(s) => s
        case Lazy(p) => p()
        case Sized(f) => f(size, middle)
        case PerRow(_) => []
  }

  predicate IsPerRow(o: Option<Content>) { o.Some? && o.value.PerRow? }

  /** The last per-row transformer among the slots, if any. */
  function Transformer(slots: Slots): (t: Option<(int, int, Text) -> Text>)
    ensures t.Some? <==> exists k :: 0 <= k < |slots| && IsPerRow(slots[k])
    ensures t.Some? ==> exists k :: 0 <= k < |slots| && IsPerRow(slots[k]) && slots[k].value.g == t.value &&
                                   forall j :: k < j < |slots| ==> !IsPerRow(slots[j])
  {
    if slots == [] then None
    else
      var last := slots[|slots| - 1];
      var before := Transformer(slots[..|slots| - 1]);
      assert forall k :: 0 <= k < |slots| - 1 ==> slots[..|slots| - 1][k] == slots[k];
      if IsPerRow(last) then Some(last.value.g) else before
  }
}
