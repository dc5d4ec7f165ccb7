/** The stateful reader the server takes its work items from. */
module WorkParsers {
  import opened Outcomes
  import opened Text
  import opened Segments

  const DEFAULT_SEP := "#WORKER----"

  class WorkParser {
    /** What the input stream has not delivered yet. */
    var input: string
    var nextItem: string
    const sep: string
    var nrItems: SizeT

    constructor (workStream: string, separator: string)
      ensures sep == separator && nrItems == 0
      ensures Upcoming() == WorkItems(workStream, separator)
    {
      input, sep, nrItems, nextItem := workStream, separator, 0, "";
      new;
      ParseNext();
    }

    /** The items that repeated calls of Next will still return. */
    ghost function Upcoming(): seq<string>
      reads this
    {
      if nextItem == "" then [] else [nextItem] + WorkItems(input, sep)
    }

    /** Fills the look-ahead with the lines up to the next separator. */
    method ParseNext()
      modifies this`input, this`nextItem
      ensures nextItem == Split(old(input), sep)[0]
      ensures Upcoming() == WorkItems(old(input), sep)
    {
      var item := "";
      ExtendEmpty(Split(input, sep));
      var next := GetLine(input);
      while next.Some? && next.value.0 != sep
        invariant next == GetLine(input)
        invariant Split(old(input), sep) == Extend(item, Split(input, sep))
        decreases |input|
      {
        ExtendTwice(item, next.value.0 + "\n", Split(next.value.1, sep));
        item := item + (next.value.0 + "\n");
        input := next.value.1;
        next := GetLine(input);
      }
      if next.Some? {
        input := next.value.1;
      }
      nextItem := item;
    }

    predicate HasNext()
      reads this
      ensures HasNext() <==> Upcoming() != []
    {
      nextItem != ""
    }

    /** The look-ahead; it is counted if there was one, and replaced in any case. */
    method Next() returns (result: string)
      modifies this
      ensures result == old(nextItem)
      ensures old(Upcoming()) != [] ==>
        && result == old(Upcoming())[0] && Upcoming() == old(Upcoming())[1..]
        && nrItems == Increment(old(nrItems))
      ensures old(Upcoming()) == [] ==>
        nrItems == old(nrItems) && Upcoming() == WorkItems(old(input), sep)
    {
      result := nextItem;
      if |result| > 0 {
        nrItems := Increment(nrItems);
      }
      ParseNext();
    }
  }

  lemma TakeNext(items: seq<string>, upcoming: seq<string>)
    requires upcoming != []
    ensures items + upcoming == (items + [upcoming[0]]) + upcoming[1..]
  {
  }

  /** 1, 2, 3 and so on. */
  predicate CountsUp(numbers: seq<SizeT>) {
    forall k :: 0 <= k < |numbers| ==> numbers[k] == k + 1
  }

  /** Reading item by item yields the pure split: the k-th call returns the k-th segment and
      leaves the count at k. */
  method ListItems(workStream: string, sep: string) returns (items: seq<string>, numbers: seq<SizeT>)
    requires |WorkItems(workStream, sep)| < SIZE_LIMIT
    ensures items == WorkItems(workStream, sep)
    ensures |numbers| == |items| && CountsUp(numbers)
  {
    var parser := new WorkParser(workStream, sep);
    items, numbers := [], [];
    ghost var upcoming := parser.Upcoming();
    while parser.HasNext()
      invariant fresh(parser) && upcoming == parser.Upcoming()
      invariant items + upcoming == WorkItems(workStream, sep)
      invariant |numbers| == |items| == parser.nrItems && CountsUp(numbers)
      decreases |upcoming|
    {
      TakeNext(items, upcoming);
      var item := parser.Next();
      upcoming := upcoming[1..];
      items := items + [item];
      numbers := numbers + [parser.nrItems];
    }
    assert items + [] == items;
  }
}
