/** The two JPA entities of the server, `Pin` and `Tag`, linked many-to-many.
    Each side keeps a `java.util.HashSet` of the other; a HashSet holds at most one
    element from each `equals` class, so membership, insertion and removal below
    are stated through the entities' own `Equals`. */
module Entities {
  import opened Common

  const TWO_64: int := 0x1_0000_0000_0000_0000
  const MIN_LONG: int := -0x8000_0000_0000_0000
  const MAX_LONG: int := 0x7FFF_FFFF_FFFF_FFFF

  /** The range of Java's `long`; ids are unbounded integers here and are read as
      `long` only where their bit pattern matters, in `hashCode`. */
  predicate IsLong(v: int) {
    MIN_LONG <= v <= MAX_LONG
  }

  /** `Long.hashCode(v)`: the two 32-bit halves of the two's-complement pattern
      xor-ed together, read as a signed `int`. */
  function LongHash(v: int): (r: int)
    requires IsLong(v)
    ensures MIN_INT32 <= r <= MAX_INT32
  {
    var b := (if v < 0 then v + TWO_64 else v) as bv64;
    var folded := (b ^ (b >> 32)) & 0xFFFF_FFFF;
    Wrap32(folded as int)
  }

  /** `String.hashCode`: h = 31 * h + c over the characters, in `int` arithmetic. */
  function JavaStringHash(s: string): (r: int)
    ensures MIN_INT32 <= r <= MAX_INT32
  {
    if s == [] then 0
    else Wrap32(31 * JavaStringHash(s[..|s| - 1]) + s[|s| - 1] as int)
  }

  /** `Objects.hash(x)` for one argument whose own hash is `h` (null hashes to 0). */
  function ObjectsHash1(h: int): int {
    Wrap32(31 + h)
  }

  class Tag {
    var id: Option<int>
    /** The unique business key. The core never renames a tag, so the name is fixed
        at construction. */
    const name: Option<string>
    var pins: set<Pin>

    /** `new Tag(name)`: no id yet and no pins. */
    constructor (name: Option<string>)
      ensures this.name == name && id.None? && pins == {}
    {
      this.name := name;
      id := None;
      pins := {};
    }

    /** `Tag.equals`: the same object, or another tag with an equal (null-safe) name. */
    predicate Equals(o: Tag?)
      ensures Equals(o) <==> o != null && o.name == name
    {
      o != null && (this == o || o.name == name)
    }

    /** `Tag.hashCode`: `Objects.hash(name)`. */
    function HashCode(): (r: int)
      ensures MIN_INT32 <= r <= MAX_INT32
    {
      ObjectsHash1(if name.Some? then JavaStringHash(name.value) else 0)
    }

    /** `pins.contains(p)`. */
    predicate HasPin(p: Pin)
      reads this, pins, p
    {
      exists q :: q in pins && q.Equals(p)
    }
  }

  class Pin {
    var id: Option<int>
    var title: Option<string>
    var notes: Option<string>
    var latitude: Option<real>
    var longitude: Option<real>
    var userId: Option<int>
    var tags: set<Tag>

    /** `new Pin()`: every field null and no tags. */
    constructor ()
      ensures id.None? && title.None? && notes.None? && latitude.None? && longitude.None?
      ensures userId.None? && tags == {}
    {
      id, title, notes, latitude, longitude, userId, tags := None, None, None, None, None, None, {};
    }

    /** `new Pin(title, latitude, longitude)`. */
    constructor WithLocation(title: Option<string>, latitude: Option<real>, longitude: Option<real>)
      ensures this.title == title && this.latitude == latitude && this.longitude == longitude
      ensures id.None? && notes.None? && userId.None? && tags == {}
    {
      this.title, this.latitude, this.longitude := title, latitude, longitude;
      id, notes, userId, tags := None, None, None, {};
    }

    /** `Pin.equals`: the same object, or a persisted pin (non-null id) with the same id. */
    predicate Equals(o: Pin?)
      reads this, o
      ensures Equals(o) ==> o != null
      ensures Equals(this)
      ensures o != null && id.Some? && o.id == id ==> Equals(o)
      ensures o != null && o != this && id.None? ==> !Equals(o)
      ensures o != null && o != this && o.id != id ==> !Equals(o)
    {
      o != null && (this == o || (id.Some? && id == o.id))
    }

    /** `Pin.hashCode`: `Objects.hash(id)` once persisted, otherwise the hash of the
        class object, which is given as `classHash`. */
    function HashCode(classHash: int): (r: int)
      reads this
      requires id.Some? ==> IsLong(id.value)
      requires MIN_INT32 <= classHash <= MAX_INT32
      ensures MIN_INT32 <= r <= MAX_INT32
      ensures id.None? ==> r == classHash
    {
      if id.Some? then ObjectsHash1(LongHash(id.value)) else classHash
    }

    /** The hash `hashCode` was meant to be: one that stays put when the entity gets
        its id. Only the hash of the class object qualifies, since a transient pin
        cannot know the id it will be given. */
    function StableHashCode(classHash: int): (r: int)
      reads this
      requires MIN_INT32 <= classHash <= MAX_INT32
      ensures MIN_INT32 <= r <= MAX_INT32
      ensures id.None? ==> r == HashCode(classHash)
    {
      classHash
    }

    /** `tags.contains(t)`. */
    predicate HasTag(t: Tag)
      reads this
    {
      exists u :: u in tags && u.Equals(t)
    }

    /** The HashSet invariant of `tags`: no two elements are equal. */
    predicate TagsDistinct()
      reads this
    {
      forall u, v :: u in tags && v in tags && u.Equals(v) ==> u == v
    }

    /** `addTag`: both sides of the association gain the other, unless an equal
        element is already there; a null tag changes nothing. */
    method AddTag(t: Tag?)
      modifies this`tags, (if t == null then {} else {t})`pins
      ensures t == null ==> tags == old(tags)
      ensures t != null ==> HasTag(t) && t.HasPin(this)
      ensures t != null ==> tags == old(tags) + (if old(HasTag(t)) then {} else {t})
      ensures t != null ==> t.pins == old(t.pins) + (if old(t.HasPin(this)) then {} else {this})
      ensures old(TagsDistinct()) ==> TagsDistinct()
    {
      if t != null {
        if !HasTag(t) {
          tags := tags + {t};
        }
        if !t.HasPin(this) {
          t.pins := t.pins + {this};
        }
        assert t.pins == old(t.pins) + (if old(t.HasPin(this)) then {} else {this});
      }
    }

    /** `removeTag`: both sides lose every element equal to the other; a null tag
        changes nothing. */
    method RemoveTag(t: Tag?)
      modifies this`tags, (if t == null then {} else {t})`pins
      ensures t == null ==> tags == old(tags)
      ensures t != null ==> !HasTag(t) && !t.HasPin(this)
      ensures t != null ==> tags == set u | u in old(tags) && !u.Equals(t)
      ensures t != null ==> t.pins == set q | q in old(t.pins) && !q.Equals(this)
      ensures old(TagsDistinct()) ==> TagsDistinct()
    {
      if t != null {
        tags := set u | u in tags && !u.Equals(t);
        t.pins := set q | q in t.pins && !q.Equals(this);
      }
    }
  }

  /** Pin equality is symmetric. */
  lemma PinEqualsSymmetric(p: Pin, q: Pin)
    ensures p.Equals(q) == q.Equals(p)
  {
  }

  /** `hashCode` is consistent with `equals` for pins. */
  lemma PinHashConsistent(p: Pin, q: Pin, classHash: int)
    requires p.id.Some? ==> IsLong(p.id.value)
    requires q.id.Some? ==> IsLong(q.id.value)
    requires MIN_INT32 <= classHash <= MAX_INT32
    requires p.Equals(q)
    ensures p.HashCode(classHash) == q.HashCode(classHash)
  {
  }

  /** `hashCode` is consistent with `equals` for tags, whatever their ids. */
  lemma TagHashConsistent(t: Tag, u: Tag)
    requires t.Equals(u)
    ensures t.HashCode() == u.HashCode()
  {
  }

  /** Two distinct transient pins are never equal, whichever side is asked. */
  lemma TransientPinsUnequal(p: Pin, q: Pin)
    requires p != q && p.id.None?
    ensures !p.Equals(q) && !q.Equals(p)
  {
  }

  /** A persisted pin and another object loaded with the same id are equal both ways
      and hash alike. */
  lemma PersistedCopiesEqual(p: Pin, q: Pin, classHash: int)
    requires p.id.Some? && IsLong(p.id.value) && q.id == p.id
    requires MIN_INT32 <= classHash <= MAX_INT32
    ensures p.Equals(q) && q.Equals(p)
    ensures p.HashCode(classHash) == q.HashCode(classHash)
  {
  }

  /** Pin equality is transitive. */
  lemma PinEqualsTransitive(p: Pin, q: Pin, r: Pin)
    requires p.Equals(q) && q.Equals(r)
    ensures p.Equals(r)
  {
  }

  /** `hashCode` as written: a pin saved while its hash is in use, say as an element
      of a tag's `pins` set, gets a different hash when the database hands it id 1
      or id 2 (`Objects.hash` of those is 32 and 33, and the class hash cannot be
      both). The same object is hashed before and after each assignment. */
  method PersistChangesHash(classHash: int) returns (before: int, withId1: int, withId2: int)
    requires MIN_INT32 <= classHash <= MAX_INT32
    ensures before == classHash && withId1 == 32 && withId2 == 33
    ensures withId1 != before || withId2 != before
  {
    var p := new Pin();
    before := p.HashCode(classHash);
    p.id := Some(1);
    assert LongHash(1) == 1;
    withId1 := p.HashCode(classHash);
    p.id := Some(2);
    assert LongHash(2) == 2;
    withId2 := p.HashCode(classHash);
  }

  /** The corrected hash survives persistence and stays consistent with `equals`. */
  method PersistKeepsStableHash(classHash: int) returns (before: int, after: int)
    requires MIN_INT32 <= classHash <= MAX_INT32
    ensures before == after == classHash
  {
    var p := new Pin();
    before := p.StableHashCode(classHash);
    p.id := Some(1);
    after := p.StableHashCode(classHash);
  }

  /** Equal pins have equal corrected hashes, whatever their ids. */
  lemma StableHashConsistent(p: Pin, q: Pin, classHash: int)
    requires MIN_INT32 <= classHash <= MAX_INT32
    requires p.Equals(q)
    ensures p.StableHashCode(classHash) == q.StableHashCode(classHash)
  {
  }
}
