/** The doubly linked list of src/list.c, on heap nodes, refining a sequence of entries. */
module LinkedList {
  import opened Bytes
  import opened Sequences

  /** A node. The payload is set once, by the two append operations; only the links change. */
  class Elem {
    const info: string
    const data: Option<Bytes>
    const size: nat
    var next: Elem?
    var prev: Elem?

    constructor (info: string, data: Option<Bytes>, size: nat)
      ensures this.info == info && this.data == data && this.size == size
      ensures next == null && prev == null
    {
      this.info, this.data, this.size := info, data, size;
      next, prev := null, null;
    }
  }

  class List {
    var head: Elem?
    var tail: Elem?
    var elemNumber: int
    ghost var nodes: seq<Elem>

    /** The nodes are distinct, head and tail are its ends, and next and prev mirror each other along it. */
    ghost predicate Linked()
      reads this, nodes
    {
      && Distinct(nodes)
      && (if nodes == [] then head == null && tail == null
          else head == nodes[0] && tail == nodes[|nodes| - 1])
      && (forall i {:trigger nodes[i].next} :: 0 <= i < |nodes| ==>
            nodes[i].next == if i + 1 < |nodes| then nodes[i + 1] else null)
      && (forall i {:trigger nodes[i].prev} :: 0 <= i < |nodes| ==>
            nodes[i].prev == if i > 0 then nodes[i - 1] else null)
    }

    ghost predicate Valid()
      reads this, nodes
    {
      Linked() && elemNumber == |nodes|
    }

    /** The abstract value: the entries from head to tail. */
    ghost function Names(): (r: seq<string>)
      reads this
      ensures |r| == |nodes|
    {
      seq(|nodes|, i requires 0 <= i < |nodes| reads this => nodes[i].info)
    }

    constructor ()
      ensures Valid() && Names() == [] && nodes == []
    {
      head, tail, elemNumber := null, null, 0;
      nodes := [];
    }

    method GetHead() returns (e: Elem?)
      requires Valid()
      ensures e == if nodes == [] then null else nodes[0]
    {
      if elemNumber == 0 { return null; }
      return head;
    }

    method NextList(e: Elem, ghost i: nat) returns (n: Elem?)
      requires Valid() && i < |nodes| && e == nodes[i]
      ensures n == if i + 1 < |nodes| then nodes[i + 1] else null
    {
      return e.next;
    }

    method Link(e: Elem)
      requires Valid() && e !in nodes && e.next == null && e.prev == null
      modifies this, nodes, e
      ensures Valid() && nodes == old(nodes) + [e]
    {
      if elemNumber == 0 {
        head := e;
        tail := e;
        elemNumber := elemNumber + 1;
      } else {
        e.prev := tail;
        tail.next := e;
        tail := e;
        elemNumber := elemNumber + 1;
      }
      nodes := nodes + [e];
    }

    method AppendList(name: string) returns (added: Elem)
      requires Valid()
      modifies this, nodes
      ensures Valid() && fresh(added) && nodes == old(nodes) + [added]
      ensures Names() == old(Names()) + [name]
      ensures added.info == name && added.data == None && added.size == 0
    {
      added := new Elem(name, None, 0);
      Link(added);
    }

    /** A missing content is refused and changes nothing. */
    method AppendListCont(name: string, content: Option<Bytes>) returns (added: Elem?)
      requires Valid()
      modifies this, nodes
      ensures Valid()
      ensures content == None ==> added == null && nodes == old(nodes)
      ensures content != None ==>
        added != null && fresh(added) && nodes == old(nodes) + [added]
        && added.info == name && added.data == content && added.size == |content.value|
      ensures Names() == old(Names()) + if content == None then [] else [name]
    {
      if content == None { return null; }
      added := new Elem(name, content, |content.value|);
      Link(added);
    }

    method PopHead() returns (e: Elem?)
      requires Valid()
      modifies this, nodes
      ensures Valid()
      ensures old(nodes) == [] ==> e == null && nodes == []
      ensures old(nodes) != [] ==> e == old(nodes)[0] && nodes == old(nodes)[1..]
      ensures old(nodes) != [] ==> Names() == old(Names())[1..]
    {
      if elemNumber == 0 || head == null { return null; }
      e := head;
      head := head.next;
      if head != null {
        head.prev := null;
      }
      elemNumber := elemNumber - 1;
      if elemNumber == 0 {
        tail := head;
        assert head == null;  // so the source's reset of head->next never runs
      }
      nodes := nodes[1..];
    }

    method PopTail() returns (e: Elem?)
      requires Valid()
      modifies this, nodes
      ensures Valid()
      ensures old(nodes) == [] ==> e == null && nodes == []
      ensures old(nodes) != [] ==> e == old(nodes)[|old(nodes)| - 1] && nodes == old(nodes)[..|old(nodes)| - 1]
      ensures old(nodes) != [] ==> Names() == old(Names())[..|old(nodes)| - 1]
    {
      if elemNumber == 0 { return null; }
      e := tail;
      tail := tail.prev;
      if tail != null {
        tail.next := null;
      }
      elemNumber := elemNumber - 1;
      if elemNumber == 0 {
        head := tail;
        assert tail == null;  // so the source's reset of tail->prev never runs
      }
      nodes := nodes[..|nodes| - 1];
    }

    method ContainsList(str: string) returns (found: bool)
      requires Valid()
      ensures found <==> str in Names()
    {
      var current := head;
      ghost var i := 0;
      while current != null
        invariant 0 <= i <= |nodes|
        invariant current == if i < |nodes| then nodes[i] else null
        invariant forall j :: 0 <= j < i ==> nodes[j].info != str
        decreases |nodes| - i
      {
        if current.info == str {
          assert Names()[i] == str;
          return true;
        }
        current := current.next;
        i := i + 1;
      }
      return false;
    }

    /** The search of removeList: the first node holding str, with its position. */
    method FirstMatch(str: string) returns (current: Elem?, ghost i: nat)
      requires Valid()
      ensures i == FirstIndex(Names(), str)
      ensures current == if i < |nodes| then nodes[i] else null
    {
      current := GetHead();
      i := 0;
      while current != null && current.info != str
        invariant 0 <= i <= |nodes|
        invariant current == if i < |nodes| then nodes[i] else null
        invariant forall j :: 0 <= j < i ==> Names()[j] != str
        decreases |nodes| - i
      {
        current := current.next;
        i := i + 1;
      }
      assert i < |nodes| ==> Names()[i] == str;
      FirstIndexIs(Names(), str, i);
    }

    method UnlinkHead(current: Elem)
      requires Valid() && nodes != [] && current == nodes[0]
      modifies this, nodes
      ensures Linked() && nodes == old(nodes)[1..] && elemNumber == old(elemNumber) - 1
    {
      head := current.next;
      if head != null {
        head.prev := null;
      }
      elemNumber := elemNumber - 1;
      nodes := nodes[1..];
      if elemNumber == 0 {
        head := null;
        tail := null;
      }
    }

    method UnlinkFromTail(current: Elem, ghost i: nat)
      requires Valid() && 0 < i < |nodes| && current == nodes[i]
      modifies this, nodes
      ensures Linked() && nodes == old(nodes)[..i] && elemNumber == old(elemNumber) - 1
    {
      tail := current.prev;
      if tail != null {
        tail.next := null;
      }
      elemNumber := elemNumber - 1;
      nodes := nodes[..i];
    }

    method UnlinkMiddle(current: Elem, ghost i: nat)
      requires Valid() && 0 < i < |nodes| - 1 && current == nodes[i]
      modifies this, nodes
      ensures Linked() && nodes == RemoveAt(old(nodes), i) && elemNumber == old(elemNumber) - 1
    {
      current.prev.next := current.next;
      current.next.prev := current.prev;
      elemNumber := elemNumber - 1;
      nodes := RemoveAt(nodes, i);
    }

    /** Head and tail are recognised by comparing strings, not nodes. */
    method UnlinkMatch(current: Elem, ghost i: nat)
      requires Valid() && i < |nodes| && current == nodes[i] && i == FirstIndex(Names(), current.info)
      modifies this, nodes
      ensures Linked() && forall e :: e in nodes ==> e in old(nodes)
      ensures Names() == ListRemove(old(Names()), current.info)
      ensures elemNumber == old(elemNumber) - 1
    {
      ghost var names := Names();
      assert names[i] == current.info && names[0] == head.info && names[|names| - 1] == tail.info;
      if current.info == head.info {
        UnlinkHead(current);
        assert Names() == names[1..];
      } else if current.info == tail.info {
        UnlinkFromTail(current, i);
        assert Names() == names[..i];
      } else {
        UnlinkMiddle(current, i);
        assert Names() == RemoveAt(names, i);
      }
    }

    /**
     * The count drops by one whatever the list loses, so the list is well counted again
     * exactly when the removal is exact.
     */
    method RemoveList(str: string) returns (ok: bool)
      requires Valid()
      modifies this, nodes
      ensures Linked() && forall e :: e in nodes ==> e in old(nodes)
      ensures ok <==> str in old(Names())
      ensures Names() == ListRemove(old(Names()), str)
      ensures elemNumber == old(elemNumber) - if ok then 1 else 0
      ensures Valid() <==> !TailHidesEarlierMatch(old(Names()), str)
    {
      var current, i := FirstMatch(str);
      ListRemoveExact(Names(), str);
      if current == null { return false; }
      UnlinkMatch(current, i);
      return true;
    }

    method ElemsNumber() returns (count: nat)
      requires Linked()
      ensures count == |nodes|
    {
      var current := head;
      count := 0;
      while current != null
        invariant 0 <= count <= |nodes|
        invariant current == if count < |nodes| then nodes[count] else null
        decreases |nodes| - count
      {
        count := count + 1;
        current := current.next;
      }
    }
  }
}
