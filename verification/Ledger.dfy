/** Who holds which page frame: the free frames and the holdings of every owner partition the
    pool of the allocator. */
module Ledger {

  /** Holders of frames: the kernel address space, and the address space of each task. */
  datatype Owner = KernelSpace | TaskSpace(id: nat)

  datatype Book = Book(free: set<nat>, own: map<Owner, set<nat>>)

  /** Every frame of the pool is free or has exactly one owner, and nothing else is owned. */
  ghost predicate Balanced(b: Book, pool: set<nat>) {
    && b.free <= pool
    && (forall o | o in b.own :: b.own[o] <= pool && b.own[o] !! b.free)
    && (forall o, o' | o in b.own && o' in b.own && o != o' :: b.own[o] !! b.own[o'])
    && (forall p | p in pool :: p in b.free || exists o :: o in b.own && p in b.own[o])
  }

  /** Owner `o` takes free frames. */
  ghost function Take(b: Book, o: Owner, s: set<nat>): Book {
    Book(b.free - s, b.own[o := (if o in b.own then b.own[o] else {}) + s])
  }

  /** Owner `o` gives frames back. */
  ghost function Give(b: Book, o: Owner, s: set<nat>): Book
    requires o in b.own
  {
    Book(b.free + s, b.own[o := b.own[o] - s])
  }

  /** Owner `o`, who holds nothing, leaves. */
  ghost function Leave(b: Book, o: Owner): Book { b.(own := b.own - {o}) }

  lemma TakeBalanced(b: Book, pool: set<nat>, o: Owner, s: set<nat>)
    requires Balanced(b, pool) && s <= b.free
    ensures Balanced(Take(b, o, s), pool)
  {
    var b' := Take(b, o, s);
    forall p | p in pool ensures p in b'.free || exists o' :: o' in b'.own && p in b'.own[o'] {
      if p in s {
        assert p in b'.own[o];
      } else if p !in b.free {
        var o' :| o' in b.own && p in b.own[o'];
        assert p in b'.own[o'];
      }
    }
  }

  lemma GiveBalanced(b: Book, pool: set<nat>, o: Owner, s: set<nat>)
    requires Balanced(b, pool) && o in b.own && s <= b.own[o]
    ensures Balanced(Give(b, o, s), pool)
  {
    var b' := Give(b, o, s);
    forall p | p in pool ensures p in b'.free || exists o' :: o' in b'.own && p in b'.own[o'] {
      if p !in b'.free {
        var o' :| o' in b.own && p in b.own[o'];
        assert p in b'.own[o'];
      }
    }
  }

  lemma LeaveBalanced(b: Book, pool: set<nat>, o: Owner)
    requires Balanced(b, pool) && o in b.own && b.own[o] == {}
    ensures Balanced(Leave(b, o), pool)
  {
    var b' := Leave(b, o);
    forall p | p in pool ensures p in b'.free || exists o' :: o' in b'.own && p in b'.own[o'] {
      if p !in b.free {
        var o' :| o' in b.own && p in b.own[o'];
        assert o' in b'.own;
      }
    }
  }
}
