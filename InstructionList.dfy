/**
 * The doubly linked instruction list of the tinyL toolchain: `read_instruction_list` builds it
 * from the lines of a RISC file, `print_instruction_list` writes it out again, and the
 * interpreter walks it from its head.
 */
module InstructionList {
  import opened Wrappers
  import opened Instruction

  /** One instruction of the list, with its `prev` and `next` links. */
  class Node {
    const instr: Instr
    var prev: Node?
    var next: Node?

    constructor (i: Instr)
      ensures instr == i && prev == null && next == null
    {
      instr := i;
      prev := null;
      next := null;
    }
  }

  /** The instructions held by a run of nodes, in order. */
  function Values(nodes: seq<Node>): (code: seq<Instr>)
    ensures |code| == |nodes|
    ensures forall k :: 0 <= k < |nodes| ==> code[k] == nodes[k].instr
  {
    seq(|nodes|, k requires 0 <= k < |nodes| => nodes[k].instr)
  }

  /**
   * Following `next` from `head` visits exactly `nodes`, in order, and then reaches an
   * absent link: what the loops that walk the list rely on.
   */
  ghost predicate Chain(head: Node?, nodes: seq<Node>)
    reads nodes
  {
    && head == (if nodes == [] then null else nodes[0])
    && (forall k :: 0 <= k < |nodes| - 1 ==> nodes[k].next == nodes[k + 1])
    && (nodes != [] ==> nodes[|nodes| - 1].next == null)
  }

  /** The list as `read_instruction_list` keeps it: a head, a tail and the nodes in between. */
  class InstrList {
    var head: Node?
    var tail: Node?
    ghost var Nodes: seq<Node>

    /**
     * The nodes are distinct, the head has no predecessor, the tail has no successor, and
     * each node's `next` is the following node whose `prev` points back to it.
     */
    ghost predicate Valid()
      reads this, Nodes
    {
      && (Nodes == [] ==> head == null && tail == null)
      && (Nodes != [] ==>
            && head == Nodes[0] && tail == Nodes[|Nodes| - 1]
            && Nodes[0].prev == null && Nodes[|Nodes| - 1].next == null)
      && (forall k :: 0 <= k < |Nodes| - 1 ==> Nodes[k].next == Nodes[k + 1] && Nodes[k + 1].prev == Nodes[k])
      && (forall j, k :: 0 <= j < k < |Nodes| ==> Nodes[j] != Nodes[k])
    }

    /** The instructions of the list, from head to tail. */
    ghost function Contents(): seq<Instr>
      reads this
    {
      Values(Nodes)
    }

    /** `head = tail = None`. */
    constructor ()
      ensures Valid() && Nodes == [] && Contents() == []
    {
      head := null;
      tail := null;
      Nodes := [];
    }

    /**
     * One decoded instruction joins the list: it becomes the head of an empty list, or is
     * linked after the old tail (`tail.next = instr; instr.prev = tail; tail = instr`).
     */
    method Append(i: Instr)
      requires Valid()
      modifies this, Nodes
      ensures Valid()
      ensures Contents() == old(Contents()) + [i]
      ensures |Nodes| == |old(Nodes)| + 1 && Nodes[..|old(Nodes)|] == old(Nodes)
      ensures fresh(Nodes[|Nodes| - 1])
    {
      var node := new Node(i);
      if head == null {
        head, tail := node, node;
      } else {
        tail.next := node;
        node.prev := tail;
        tail := node;
      }
      Nodes := Nodes + [node];
      assert Values(Nodes) == Values(old(Nodes)) + [i];
    }
  }

  /**
   * The links agree in both directions: every node with a successor is that successor's
   * predecessor, every node with a predecessor is its successor, and only the head has no
   * predecessor and only the tail no successor.
   */
  lemma {:induction false} Linked(l: InstrList)
    requires l.Valid()
    ensures forall n :: n in l.Nodes && n.next != null ==> n.next in l.Nodes && n.next.prev == n
    ensures forall n :: n in l.Nodes && n.prev != null ==> n.prev in l.Nodes && n.prev.next == n
    ensures forall n :: n in l.Nodes ==> (n.prev == null <==> n == l.head)
    ensures forall n :: n in l.Nodes ==> (n.next == null <==> n == l.tail)
    ensures Chain(l.head, l.Nodes)
  {
    var ns := l.Nodes;
    forall n | n in ns
      ensures n.next != null ==> n.next in ns && n.next.prev == n
      ensures n.prev != null ==> n.prev in ns && n.prev.next == n
      ensures n.prev == null <==> n == l.head
      ensures n.next == null <==> n == l.tail
    {
      var k :| 0 <= k < |ns| && ns[k] == n;
      if k + 1 < |ns| {
        assert ns[k].next == ns[k + 1];
      }
      if k > 0 {
        assert ns[k - 1].next == ns[k] && ns[k].prev == ns[k - 1];
      }
    }
  }

  /**
   * `read_instruction_list` on the lines of a file: each line is decoded in turn, lines that
   * give no instruction are skipped, and the others are appended to the list; the first line
   * that raises ends the read with its error, and no list is returned.
   */
  method ReadInstructionList(lines: seq<string>) returns (res: Result<InstrList, LineError>)
    ensures DecodeLines(lines).Err? ==> res == Err(DecodeLines(lines).error)
    ensures DecodeLines(lines).Ok? ==>
      res.Ok? && fresh(res.value) && res.value.Valid() && res.value.Contents() == DecodeLines(lines).value
  {
    ghost var ds := DecodeEach(lines);
    var list := new InstrList();
    var k := 0;
    while k < |lines|
      invariant 0 <= k <= |lines|
      invariant list.Valid() && fresh(list) && fresh(list.Nodes)
      invariant Collect(ds[..k]) == Ok(list.Contents())
    {
      var d := Decode(lines[k]);
      assert ds[k] == d;
      CollectStep(ds, k);
      ghost var before := list.Contents();
      match d {
        case Err(e) =>
          CollectErrorStays(ds, k + 1);
          assert DecodeLines(lines) == Err(LineError(k, e));
          return Err(LineError(k, e));
        case Ok(None) =>
        case Ok(Some(i)) =>
          list.Append(i);
          assert Collect(ds[..k + 1]) == Ok(before + [i]);
      }
      k := k + 1;
    }
    assert ds[..k] == ds;
    assert DecodeLines(lines) == Ok(list.Contents());
    return Ok(list);
  }

  /** The instructions of two runs of nodes joined are those of the first, then those of the second. */
  lemma {:induction false} ValuesAppend(a: seq<Node>, b: seq<Node>)
    ensures Values(a + b) == Values(a) + Values(b)
  {
  }

  lemma {:induction false} ValuesStep(nodes: seq<Node>, k: nat)
    requires k < |nodes|
    ensures Values(nodes[..k + 1]) == Values(nodes[..k]) + [nodes[k].instr]
  {
    assert nodes[..k + 1] == nodes[..k] + [nodes[k]];
  }

  /** Why `print_instruction_list` refuses to write. */
  datatype PrintError = NoInstructions

  /**
   * `print_instruction_list`: an absent first node is an error; otherwise the lines
   * `print_instruction` appends, one per node, following `next` until it is absent.
   */
  method PrintInstructionList(head: Node?, ghost nodes: seq<Node>) returns (res: Result<seq<string>, PrintError>)
    requires Chain(head, nodes)
    ensures nodes == [] ==> res == Err(NoInstructions)
    ensures nodes != [] ==> res == Ok(EncodeLines(Values(nodes)))
  {
    if head == null {
      return Err(NoInstructions);
    }
    var lines := [];
    var instr := head;
    ghost var k := 0;
    while instr != null
      invariant 0 <= k <= |nodes|
      invariant instr == (if k < |nodes| then nodes[k] else null)
      invariant lines == EncodeLines(Values(nodes[..k]))
      decreases |nodes| - k
    {
      ValuesStep(nodes, k);
      EncodeLinesStep(Values(nodes[..k]), instr.instr);
      lines := lines + [Encode(instr.instr)];
      instr := instr.next;
      k := k + 1;
    }
    assert nodes[..k] == nodes;
    return Ok(lines);
  }
}
