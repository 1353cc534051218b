/** String interning on top of the table (src/xanString.c). */
module Interning {
  import opened Machine
  import opened Probing
  import opened Table

  const FNV_OFFSET := 2166136261
  const FNV_PRIME := 16777619
  const WORD := 0x1_0000_0000

  function Xor(x: nat, y: nat): nat
    decreases x + y
  {
    if x == 0 then y else if y == 0 then x
    else 2 * Xor(x / 2, y / 2) + (if x % 2 != y % 2 then 1 else 0)
  }

  /** What hashString computes from the first i characters; a char above 0x7f is negative and
      becomes a word with its high bits set. */
  function HashPrefix(key: string, i: nat): (h: nat)
    requires i <= |key|
    ensures h < WORD
  {
    if i == 0 then FNV_OFFSET else Xor(HashPrefix(key, i - 1), CharWord(key[i - 1])) * FNV_PRIME % WORD
  }

  function CharWord(c: char): nat {
    var b := c as int % 0x100;
    if b < 0x80 then b else WORD - 0x100 + b
  }

  function HashOf(key: string): nat { HashPrefix(key, |key|) }

  /** hashString. */
  method HashString(key: string) returns (hash: nat)
    ensures hash == HashOf(key)
  {
    hash := FNV_OFFSET;
    var i := 0;
    while i < |key|
      invariant i <= |key| && hash == HashPrefix(key, i)
    {
      hash := Xor(hash, CharWord(key[i]));
      hash := hash * FNV_PRIME % WORD;
      i := i + 1;
    }
  }

  /** The strings of a VM: the content of every string object, which never changes, and the
      weak table of those that are alive. */
  class Strings {
    const text: nat -> string
    var strings: Table
    /** String objects that are linked in the heap. */
    ghost var alive: set<nat>

    /** Object i is a string with this content, and has its hash. */
    ghost predicate Holds(i: nat, chars: string)
      reads this
    {
      text(i) == chars && strings.env.isString(i) && Hash(strings.env, Obj(i)) == HashOf(chars)
    }

    /** The table holds exactly the strings that are alive, at most one for each content. */
    ghost predicate Valid()
      reads this, strings, strings.entries
    {
      && strings.Valid() && (forall i | i in alive :: Holds(i, text(i)))
      && (forall k {:trigger k in strings.m} :: k in strings.m <==> k.Obj? && k.id in alive)
      && Canonical()
    }

    ghost predicate Canonical()
      reads this
    {
      forall i, j {:trigger text(i), text(j)} | i in alive && j in alive && text(i) == text(j) :: i == j
    }

    /** Pointer equality is content equality. */
    lemma SamePointer(i: nat, j: nat)
      requires Valid() && i in alive && j in alive
      ensures text(i) == text(j) <==> i == j
    {
    }

    constructor (text: nat -> string, strings: Table)
      requires strings.Valid() && strings.m == map[]
      ensures Valid() && alive == {} && this.strings == strings && this.text == text
    {
      this.text := text;
      this.strings := strings;
      alive := {};
    }

    /** The part of a collection that concerns strings: white ones leave the table and are freed. */
    method Collect(black: set<nat>)
      requires Valid()
      modifies this`alive, strings, strings.entries
      ensures Valid() && alive == old(alive) * black && strings == old(strings)
      ensures strings.entries == old(strings.entries)
    {
      strings.RemoveWhite(black);
      alive := alive * black;
    }

    /** tableFindString on the string table. */
    method Find(chars: string, hash: nat) returns (r: int)
      requires Valid() && hash == HashOf(chars)
      ensures r >= 0 ==> r in alive && text(r) == chars
      ensures r < 0 ==> forall i | i in alive :: text(i) != chars
    {
      forall k | k in strings.m && text(k.id) == chars ensures Hash(strings.env, k) == hash {
        assert Holds(k.id, text(k.id));
        assert k == Obj(k.id);
      }
      forall k | k in strings.m ensures k.Obj? && strings.env.isString(k.id) {
        assert Holds(k.id, text(k.id));
      }
      r := strings.FindString(text, chars, hash);
      if r < 0 {
        forall i | i in alive ensures text(i) != chars {
          assert Obj(i) in strings.m;
        }
      }
    }

    /** allocateString: the new object id is a root while collections run, at the allocation of
        the object (keeping black1) and while the table grows (keeping black2). */
    method AllocateString(chars: string, id: nat, black1: set<nat>, black2: set<nat>)
      requires Valid() && Holds(id, chars) && id !in alive && forall i | i in alive :: text(i) != chars
      modifies this`alive, strings, strings.entries
      ensures Valid() && alive == old(alive) * black1 * black2 + {id} && strings == old(strings)
      ensures strings.entries == old(strings.entries) || fresh(strings.entries)
    {
      Collect(black1);
      Collect(black2);
      Insert(chars, id);
    }

    /** tableSet on the string table, for a new object. */
    method Insert(chars: string, id: nat)
      requires Valid() && Holds(id, chars) && id !in alive && forall i | i in alive :: text(i) != chars
      modifies this`alive, strings, strings.entries
      ensures Valid() && alive == old(alive) + {id} && strings == old(strings)
      ensures strings.entries == old(strings.entries) || fresh(strings.entries)
    {
      var _ := strings.Set(Obj(id), Nil);
      alive := alive + {id};
    }

    /** copyString: the object that has this content already, if one is alive, else a new one. */
    method CopyString(chars: string, id: nat, black0: set<nat>, black1: set<nat>, black2: set<nat>) returns (r: nat)
      requires Valid() && Holds(id, chars) && id !in alive
      modifies this`alive, strings, strings.entries
      ensures Valid() && r in alive && text(r) == chars && strings == old(strings)
      ensures r in old(alive) ==> alive == old(alive)
      ensures r !in old(alive) ==>
                r == id && alive == old(alive) * black0 * black1 * black2 + {id} &&
                forall i | i in old(alive) :: text(i) != chars
      ensures strings.entries == old(strings.entries) || fresh(strings.entries)
    {
      var hash := HashString(chars);
      var interned := Find(chars, hash);
      if interned >= 0 {
        return interned;
      }
      Collect(black0);
      AllocateString(chars, id, black1, black2);
      return id;
    }

    /** takeString: no characters are copied, so there is one collection less. */
    method TakeString(chars: string, id: nat, black1: set<nat>, black2: set<nat>) returns (r: nat)
      requires Valid() && Holds(id, chars) && id !in alive
      modifies this`alive, strings, strings.entries
      ensures Valid() && r in alive && text(r) == chars && strings == old(strings)
      ensures r in old(alive) ==> alive == old(alive)
      ensures r !in old(alive) ==>
                r == id && alive == old(alive) * black1 * black2 + {id} &&
                forall i | i in old(alive) :: text(i) != chars
      ensures strings.entries == old(strings.entries) || fresh(strings.entries)
    {
      var hash := HashString(chars);
      var interned := Find(chars, hash);
      if interned >= 0 {
        return interned;
      }
      AllocateString(chars, id, black1, black2);
      return id;
    }
  }
}
