/** The controller's catalogue of document actions: an insertion-ordered hash
    from action name to its options, as set up by the bookmarks controller's
    class body. */
module ActionRegistry {
  import opened RubyValues

  /** The options one document action is registered with. */
  datatype ActionOptions = ActionOptions(callback: string, toolPartial: Option<string>)

  /** One key/value pair of the ordered hash. */
  datatype Entry = Entry(name: string, options: ActionOptions)

  const EMAIL := "email"
  const CITATION := "citation"
  const UPDATE_ACCESS_CONTROL := "update_access_control"
  const MOVE := "move"
  const PUBLISH := "publish"
  const UNPUBLISH := "unpublish"
  const DELETE := "delete"

  /** The names the bookmarks controller adds, in the order it adds them. */
  const ADDED: seq<string> := [UPDATE_ACCESS_CONTROL, MOVE, PUBLISH, UNPUBLISH, DELETE]

  function Names(entries: seq<Entry>): (names: seq<string>)
    ensures |names| == |entries|
    ensures forall i :: 0 <= i < |entries| ==> names[i] == entries[i].name
  {
    if entries == [] then [] else [entries[0].name] + Names(entries[1..])
  }

  /** A hash never holds one key twice. */
  predicate DistinctNames(entries: seq<Entry>)
  {
    forall i, j :: 0 <= i < j < |entries| ==> entries[i].name != entries[j].name
  }

  /** `hash.delete(name)`. */
  function Without(entries: seq<Entry>, name: string): (r: seq<Entry>)
    ensures |r| <= |entries|
  {
    if entries == [] then []
    else if entries[0].name == name then Without(entries[1..], name)
    else [entries[0]] + Without(entries[1..], name)
  }

  /** `hash[name] = options`: an existing key keeps its position and takes the
      new options, a new key goes to the end. */
  function Put(entries: seq<Entry>, e: Entry): (r: seq<Entry>)
    ensures |entries| <= |r| <= |entries| + 1
  {
    if entries == [] then [e]
    else if entries[0].name == e.name then [e] + entries[1..]
    else [entries[0]] + Put(entries[1..], e)
  }

  /** The five actions the bookmarks controller registers, with their options. */
  const ADDED_ENTRIES: seq<Entry> := [
    Entry(UPDATE_ACCESS_CONTROL, ActionOptions("access_control_action", None)),
    Entry(MOVE, ActionOptions("move_action", None)),
    Entry(PUBLISH, ActionOptions("status_action", Some("formless_document_action"))),
    Entry(UNPUBLISH, ActionOptions("status_action", Some("formless_document_action"))),
    Entry(DELETE, ActionOptions("delete_action", None))
  ]

  /** `hash[e.name] = e.options` for each of `es`, in order. */
  function PutAll(entries: seq<Entry>, es: seq<Entry>): (r: seq<Entry>)
    ensures |entries| <= |r| <= |entries| + |es|
    decreases |es|
  {
    if es == [] then entries else PutAll(Put(entries, es[0]), es[1..])
  }

  /** The catalogue after the class body has run on the inherited one:
      email and citation removed, then the five bulk actions added in order. */
  function Configured(inherited: seq<Entry>): (r: seq<Entry>)
    ensures |r| <= |inherited| + |ADDED_ENTRIES|
  {
    PutAll(Without(Without(inherited, EMAIL), CITATION), ADDED_ENTRIES)
  }

  /** `a` is `b` with some entries left out, the rest in their order. */
  predicate IsSubsequence<T(==)>(a: seq<T>, b: seq<T>)
    decreases |b|
  {
    if a == [] then true
    else if b == [] then false
    else if a[0] == b[0] then IsSubsequence(a[1..], b[1..])
    else IsSubsequence(a, b[1..])
  }

  lemma {:induction false} WithoutNames(entries: seq<Entry>, name: string, n: string)
    ensures n in Names(Without(entries, name)) <==> n in Names(entries) && n != name
  {
    if entries != [] {
      WithoutNames(entries[1..], name, n);
      assert Names(entries) == [entries[0].name] + Names(entries[1..]);
      if entries[0].name != name {
        assert Names(Without(entries, name)) == [entries[0].name] + Names(Without(entries[1..], name));
      }
    }
  }

  lemma {:induction false} WithoutIsSubsequence(entries: seq<Entry>, name: string)
    ensures IsSubsequence(Without(entries, name), entries)
  {
    if entries != [] {
      WithoutIsSubsequence(entries[1..], name);
      if entries[0].name == name {
        SubsequenceOfTail(Without(entries[1..], name), entries);
      }
    }
  }

  lemma {:induction false} SubsequenceOfTail<T>(a: seq<T>, b: seq<T>)
    requires b != [] && IsSubsequence(a, b[1..])
    ensures IsSubsequence(a, b)
    decreases |b|, 0
  {
    if a != [] && a[0] == b[0] {
      // b[1..] holds a as a subsequence; dropping a's head keeps that
      SubsequenceDropHead(a, b[1..]);
    }
  }

  lemma {:induction false} SubsequenceDropHead<T>(a: seq<T>, b: seq<T>)
    requires a != [] && IsSubsequence(a, b)
    ensures IsSubsequence(a[1..], b)
    decreases |b|, 1
  {
    assert b != [];
    if a[0] == b[0] {
      if a[1..] != [] {
        SubsequenceOfTail(a[1..], b);
      }
    } else {
      SubsequenceDropHead(a, b[1..]);
      if a[1..] != [] {
        SubsequenceOfTail(a[1..], b);
      }
    }
  }

  lemma {:induction false} SubsequenceTransitive<T>(a: seq<T>, b: seq<T>, c: seq<T>)
    requires IsSubsequence(a, b) && IsSubsequence(b, c)
    ensures IsSubsequence(a, c)
    decreases |c|
  {
    if a != [] {
      assert b != [] && c != [];
      if b[0] == c[0] {
        if a[0] == b[0] {
          SubsequenceTransitive(a[1..], b[1..], c[1..]);
        } else {
          SubsequenceTransitive(a, b[1..], c[1..]);
        }
      } else {
        SubsequenceTransitive(a, b, c[1..]);
        SubsequenceOfTail(a, c);
      }
    }
  }

  lemma {:induction false} PutNames(entries: seq<Entry>, e: Entry, n: string)
    ensures n in Names(Put(entries, e)) <==> n in Names(entries) || n == e.name
  {
    if entries != [] {
      assert Names(entries) == [entries[0].name] + Names(entries[1..]);
      if entries[0].name == e.name {
        assert Names(Put(entries, e)) == [e.name] + Names(entries[1..]);
      } else {
        PutNames(entries[1..], e, n);
        assert Names(Put(entries, e)) == [entries[0].name] + Names(Put(entries[1..], e));
      }
    }
  }

  lemma {:induction false} PutNew(entries: seq<Entry>, e: Entry)
    requires e.name !in Names(entries)
    ensures Put(entries, e) == entries + [e]
  {
    if entries != [] {
      assert Names(entries) == [entries[0].name] + Names(entries[1..]);
      PutNew(entries[1..], e);
      assert [entries[0]] + (entries[1..] + [e]) == entries + [e];
    }
  }

  lemma {:induction false} WithoutKeepsDistinct(entries: seq<Entry>, name: string)
    requires DistinctNames(entries)
    ensures DistinctNames(Without(entries, name))
  {
    if entries != [] {
      WithoutKeepsDistinct(entries[1..], name);
      var rest := Without(entries[1..], name);
      forall n | n in Names(rest) ensures n != entries[0].name {
        WithoutNames(entries[1..], name, n);
      }
      if entries[0].name != name {
        var r := [entries[0]] + rest;
        forall i, j | 0 <= i < j < |r| ensures r[i].name != r[j].name {
          if i == 0 {
            assert r[j].name == Names(rest)[j - 1];
            assert Names(rest)[j - 1] in Names(rest);
          } else {
            assert r[i] == rest[i - 1] && r[j] == rest[j - 1];
          }
        }
      }
    }
  }

  lemma {:induction false} PutKeepsDistinct(entries: seq<Entry>, e: Entry)
    requires DistinctNames(entries)
    ensures DistinctNames(Put(entries, e))
  {
    if entries != [] {
      if entries[0].name == e.name {
        assert Put(entries, e)[1..] == entries[1..];
      } else {
        PutKeepsDistinct(entries[1..], e);
        var rest := Put(entries[1..], e);
        forall n | n in Names(rest) ensures n != entries[0].name {
          PutNames(entries[1..], e, n);
          if n != e.name {
            var k :| 0 <= k < |entries[1..]| && Names(entries[1..])[k] == n;
            assert entries[k + 1].name == n;
          }
        }
        var r := [entries[0]] + rest;
        forall i, j | 0 <= i < j < |r| ensures r[i].name != r[j].name {
          if i == 0 {
            assert r[j].name == Names(rest)[j - 1];
            assert Names(rest)[j - 1] in Names(rest);
          } else {
            assert r[i] == rest[i - 1] && r[j] == rest[j - 1];
          }
        }
      }
    }
  }

  lemma {:induction false} PutAllNames(entries: seq<Entry>, es: seq<Entry>, n: string)
    ensures n in Names(PutAll(entries, es)) <==> n in Names(entries) || n in Names(es)
    decreases |es|
  {
    if es != [] {
      PutNames(entries, es[0], n);
      PutAllNames(Put(entries, es[0]), es[1..], n);
      assert Names(es) == [es[0].name] + Names(es[1..]);
    }
  }

  lemma {:induction false} NamesAppend(a: seq<Entry>, b: seq<Entry>)
    ensures Names(a + b) == Names(a) + Names(b)
  {
  }

  lemma {:induction false} PutAllNew(entries: seq<Entry>, es: seq<Entry>)
    requires DistinctNames(es)
    requires forall k :: 0 <= k < |es| ==> es[k].name !in Names(entries)
    ensures PutAll(entries, es) == entries + es
    decreases |es|
  {
    if es != [] {
      PutNew(entries, es[0]);
      var next := entries + [es[0]];
      var rest := es[1..];
      NamesAppend(entries, [es[0]]);
      assert Names(next) == Names(entries) + [es[0].name];
      forall k | 0 <= k < |rest| ensures rest[k].name !in Names(next) {
        assert rest[k] == es[k + 1];
      }
      assert DistinctNames(rest) by {
        forall i, j | 0 <= i < j < |rest| ensures rest[i].name != rest[j].name {
          assert rest[i] == es[i + 1] && rest[j] == es[j + 1];
        }
      }
      PutAllNew(next, rest);
      assert next + es[1..] == entries + es;
    }
  }

  lemma {:induction false} PutAllKeepsDistinct(entries: seq<Entry>, es: seq<Entry>)
    requires DistinctNames(entries)
    ensures DistinctNames(PutAll(entries, es))
    decreases |es|
  {
    if es != [] {
      PutKeepsDistinct(entries, es[0]);
      PutAllKeepsDistinct(Put(entries, es[0]), es[1..]);
    }
  }

  /** `hash.delete(name)` keeps exactly the pairs under other keys. */
  lemma {:induction false} WithoutEntries(entries: seq<Entry>, name: string, x: Entry)
    ensures x in Without(entries, name) <==> x in entries && x.name != name
  {
    if entries != [] {
      WithoutEntries(entries[1..], name, x);
      assert x in entries <==> x == entries[0] || x in entries[1..];
    }
  }

  /** `hash[e.name] = e.options` holds the new pair, loses only the pair it
      replaced, and adds nothing else. */
  lemma {:induction false} PutEntries(entries: seq<Entry>, e: Entry, x: Entry)
    ensures e in Put(entries, e)
    ensures x in entries && x.name != e.name ==> x in Put(entries, e)
    ensures x in Put(entries, e) ==> x == e || x in entries
  {
    if entries != [] {
      assert x in entries <==> x == entries[0] || x in entries[1..];
      if entries[0].name != e.name {
        PutEntries(entries[1..], e, x);
      }
    }
  }

  /** Storing several pairs adds nothing but them. */
  lemma {:induction false} PutAllEntries(entries: seq<Entry>, es: seq<Entry>, x: Entry)
    ensures x in PutAll(entries, es) ==> x in entries || x in es
    decreases |es|
  {
    if es != [] {
      PutAllEntries(Put(entries, es[0]), es[1..], x);
      PutEntries(entries, es[0], x);
      assert x in es[1..] ==> x in es;
    }
  }

  /** Every entry of the configured catalogue is an inherited one other than
      email and citation, with its inherited options, or one of the five bulk
      actions as registered. */
  lemma ConfiguredEntries(inherited: seq<Entry>, x: Entry)
    ensures x in Configured(inherited) ==>
      (x in inherited && x.name != EMAIL && x.name != CITATION) || x in ADDED_ENTRIES
  {
    var a := Without(inherited, EMAIL);
    PutAllEntries(Without(a, CITATION), ADDED_ENTRIES, x);
    WithoutEntries(a, CITATION, x);
    WithoutEntries(inherited, EMAIL, x);
  }

  /** Storing pairs under other keys keeps a pair. */
  lemma {:induction false} PutAllKeeps(entries: seq<Entry>, es: seq<Entry>, x: Entry)
    requires x in entries
    requires forall j :: 0 <= j < |es| ==> es[j].name != x.name
    ensures x in PutAll(entries, es)
    decreases |es|
  {
    if es != [] {
      PutEntries(entries, es[0], x);
      assert forall j :: 0 <= j < |es[1..]| ==> es[1..][j] == es[j + 1];
      PutAllKeeps(Put(entries, es[0]), es[1..], x);
    }
  }

  /** Storing pairs under distinct keys leaves every one of them present. */
  lemma {:induction false} PutAllHoldsAll(entries: seq<Entry>, es: seq<Entry>, k: nat)
    requires DistinctNames(es) && k < |es|
    ensures es[k] in PutAll(entries, es)
    decreases |es|
  {
    if k == 0 {
      PutEntries(entries, es[0], es[0]);
      assert forall j :: 0 <= j < |es[1..]| ==> es[1..][j] == es[j + 1];
      PutAllKeeps(Put(entries, es[0]), es[1..], es[0]);
    } else {
      assert es[1..][k - 1] == es[k];
      assert DistinctNames(es[1..]) by {
        forall i, j | 0 <= i < j < |es[1..]| ensures es[1..][i].name != es[1..][j].name {
          assert es[1..][i] == es[i + 1] && es[1..][j] == es[j + 1];
        }
      }
      PutAllHoldsAll(Put(entries, es[0]), es[1..], k - 1);
    }
  }

  /** The five bulk actions are always in the configured catalogue, with the
      options registered for them, whatever was inherited under their names. */
  lemma ConfiguredHoldsFive(inherited: seq<Entry>, k: nat)
    requires k < |ADDED_ENTRIES|
    ensures ADDED_ENTRIES[k] in Configured(inherited)
  {
    assert DistinctNames(ADDED_ENTRIES);
    PutAllHoldsAll(Without(Without(inherited, EMAIL), CITATION), ADDED_ENTRIES, k);
  }

  /** Exactly which entries the configured catalogue holds: the five as
      registered, and every inherited entry under another name than email,
      citation and the five, with its inherited options. */
  lemma ConfiguredEntriesExactly(inherited: seq<Entry>, x: Entry)
    requires DistinctNames(inherited)
    ensures x in Configured(inherited) <==>
      (x in inherited && x.name != EMAIL && x.name != CITATION && x.name !in ADDED) || x in ADDED_ENTRIES
  {
    var c := Configured(inherited);
    ConfiguredEntries(inherited, x);
    ConfiguredDistinct(inherited);
    if x in c && x.name in ADDED {
      // Distinct names in the catalogue: the entry under an added name is the added one.
      var k :| 0 <= k < |ADDED| && ADDED[k] == x.name;
      ConfiguredHoldsFive(inherited, k);
      var i :| 0 <= i < |c| && c[i] == x;
      var j :| 0 <= j < |c| && c[j] == ADDED_ENTRIES[k];
      assert c[i].name == c[j].name;
      assert x == ADDED_ENTRIES[k];
    }
    if x in ADDED_ENTRIES {
      var k :| 0 <= k < |ADDED_ENTRIES| && ADDED_ENTRIES[k] == x;
      ConfiguredHoldsFive(inherited, k);
    } else if x in inherited && x.name != EMAIL && x.name != CITATION && x.name !in ADDED {
      var a := Without(Without(inherited, EMAIL), CITATION);
      WithoutEntries(inherited, EMAIL, x);
      WithoutEntries(Without(inherited, EMAIL), CITATION, x);
      forall j | 0 <= j < |ADDED_ENTRIES| ensures ADDED_ENTRIES[j].name != x.name {
        assert ADDED_ENTRIES[j].name == ADDED[j];
      }
      PutAllKeeps(a, ADDED_ENTRIES, x);
    }
  }

  /** Which names the configured catalogue holds: never email or citation,
      always the five bulk actions, and otherwise exactly the inherited ones. */
  lemma ConfiguredNames(inherited: seq<Entry>, n: string)
    ensures EMAIL !in Names(Configured(inherited))
    ensures CITATION !in Names(Configured(inherited))
    ensures forall k :: 0 <= k < |ADDED| ==> ADDED[k] in Names(Configured(inherited))
    ensures n !in ADDED ==> (n in Names(Configured(inherited)) <==> n in Names(inherited) && n != EMAIL && n != CITATION)
  {
    ConfiguredNamesAt(inherited, n);
    ConfiguredNamesAt(inherited, EMAIL);
    ConfiguredNamesAt(inherited, CITATION);
    forall k | 0 <= k < |ADDED| ensures ADDED[k] in Names(Configured(inherited)) {
      ConfiguredNamesAt(inherited, ADDED[k]);
    }
  }

  lemma ConfiguredNamesAt(inherited: seq<Entry>, n: string)
    ensures n in Names(Configured(inherited)) <==>
      n in ADDED || (n in Names(inherited) && n != EMAIL && n != CITATION)
  {
    WithoutNames(inherited, EMAIL, n);
    WithoutNames(Without(inherited, EMAIL), CITATION, n);
    PutAllNames(Without(Without(inherited, EMAIL), CITATION), ADDED_ENTRIES, n);
    assert Names(ADDED_ENTRIES) == ADDED;
  }

  /** When the inherited catalogue holds none of the five bulk actions, they
      follow the surviving inherited actions, in registration order. */
  lemma ConfiguredLayout(inherited: seq<Entry>)
    requires forall k :: 0 <= k < |ADDED| ==> ADDED[k] !in Names(inherited)
    ensures Configured(inherited) == Without(Without(inherited, EMAIL), CITATION) + ADDED_ENTRIES
  {
    var a0 := Without(Without(inherited, EMAIL), CITATION);
    forall k | 0 <= k < |ADDED_ENTRIES| ensures ADDED_ENTRIES[k].name !in Names(a0) {
      assert ADDED_ENTRIES[k].name == ADDED[k];
      WithoutNames(inherited, EMAIL, ADDED[k]);
      WithoutNames(Without(inherited, EMAIL), CITATION, ADDED[k]);
    }
    PutAllNew(a0, ADDED_ENTRIES);
  }

  /** The configured catalogue is still a hash: no name twice. */
  lemma ConfiguredDistinct(inherited: seq<Entry>)
    requires DistinctNames(inherited)
    ensures DistinctNames(Configured(inherited))
  {
    WithoutKeepsDistinct(inherited, EMAIL);
    WithoutKeepsDistinct(Without(inherited, EMAIL), CITATION);
    PutAllKeepsDistinct(Without(Without(inherited, EMAIL), CITATION), ADDED_ENTRIES);
  }
}
