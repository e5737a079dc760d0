/** The task checklist: the raw entries the form holds, their canonical
    `{ text, completed }` form (`normalizeTodosForBackend`), and the
    per-entry completion toggle of the update view (`toggleTodoCompleted`). */
module Checklist {
  import opened Wrappers

  /** A canonical checklist item, as sent to the backend. */
  datatype Item = Item(text: string, completed: bool)

  /** One raw entry of the form's `todoChecklist`, as JavaScript may hold it. */
  datatype RawEntry =
    | Nullish                                     // null or undefined
    | Str(str: string)                            // a bare label
    | Obj(text: Option<string>, completed: bool)  // an object; `text` is None when null or undefined,
                                                  // `completed` is the truthiness of its `completed` property
    | Other(truthy: bool)                         // a number or a boolean

  /** The form's `todoChecklist` field itself. */
  datatype RawChecklist =
    | NoList                            // null, undefined or another falsy value that is not an array
    | Entries(entries: seq<RawEntry>)   // an array
    | NonArrayValue(lengthIsZero: bool) // a truthy value that is not an array; whether its `length` is 0

  /** JavaScript truthiness of an entry (what `!item` and `filter(Boolean)` test). */
  predicate IsTruthy(e: RawEntry)
  {
    match e
    case Nullish => false
    case Str(str) => str != ""
    case Obj(_, _) => true
    case Other(truthy) => truthy
  }

  /** The canonical item a truthy entry is mapped to: a label becomes an
      open item, an object keeps its text and the truthiness of its
      `completed`, and every other entry (an object without a text, a number,
      a boolean) gets the text "". Its completion is what the update view's
      checkbox shows for the entry. */
  function Canonical(e: RawEntry): (item: Item)
    requires IsTruthy(e)
    ensures item.completed == ShownCompleted(e)
    ensures e.Str? ==> item.text == e.str
    ensures e.Obj? && e.text.Some? ==> item.text == e.text.value
    ensures !e.Str? && !(e.Obj? && e.text.Some?) ==> item.text == ""
  {
    match e
    case Str(str) => Item(str, false)
    case Obj(text, completed) => Item(if text.Some? then text.value else "", completed)
    case Other(_) => Item("", false)
  }

  /** Number of truthy entries. */
  function CountTruthy(s: seq<RawEntry>): nat
  {
    if s == [] then 0 else (if IsTruthy(s[0]) then 1 else 0) + CountTruthy(s[1..])
  }

  /** The `map` then `filter(Boolean)` over an array of entries: it never
      lengthens the list. */
  function NormalizeEntries(s: seq<RawEntry>): (items: seq<Item>)
    ensures |items| <= |s|
  {
    if s == [] then []
    else if IsTruthy(s[0]) then [Canonical(s[0])] + NormalizeEntries(s[1..])
    else NormalizeEntries(s[1..])
  }

  /** `normalizeTodosForBackend`: a value that is not an array yields no items. */
  function Normalize(todos: RawChecklist): (items: seq<Item>)
    ensures !todos.Entries? ==> items == []
  {
    if todos.Entries? then NormalizeEntries(todos.entries) else []
  }

  /** One output item per truthy entry, and none for a falsy one. */
  lemma {:induction false} NormalizeLength(s: seq<RawEntry>)
    ensures |NormalizeEntries(s)| == CountTruthy(s)
  {
    if s != [] {
      NormalizeLength(s[1..]);
    }
  }

  /** Normalising works entry by entry: it distributes over concatenation,
      so the relative order of the kept entries is preserved. */
  lemma {:induction false} NormalizeAppend(a: seq<RawEntry>, b: seq<RawEntry>)
    ensures NormalizeEntries(a + b) == NormalizeEntries(a) + NormalizeEntries(b)
  {
    if a == [] {
      assert a + b == b;
    } else {
      assert (a + b)[0] == a[0];
      assert (a + b)[1..] == a[1..] + b;
      NormalizeAppend(a[1..], b);
    }
  }

  /** The truthy entry at index `i` lands at position "number of truthy
      entries before it" of the output, in its canonical form. */
  lemma NormalizeAt(s: seq<RawEntry>, i: int)
    requires 0 <= i < |s| && IsTruthy(s[i])
    ensures CountTruthy(s[..i]) < |NormalizeEntries(s)|
    ensures NormalizeEntries(s)[CountTruthy(s[..i])] == Canonical(s[i])
  {
    assert s == s[..i] + [s[i]] + s[i + 1..];
    NormalizeAppend(s[..i] + [s[i]], s[i + 1..]);
    NormalizeAppend(s[..i], [s[i]]);
    NormalizeLength(s[..i]);
    assert NormalizeEntries([s[i]]) == [Canonical(s[i])] by {
      assert [s[i]][1..] == [];
    }
  }

  /** The output is empty exactly when every entry is falsy. */
  lemma {:induction false} NormalizeEmptyIffAllFalsy(s: seq<RawEntry>)
    ensures NormalizeEntries(s) == [] <==> forall i :: 0 <= i < |s| ==> !IsTruthy(s[i])
  {
    if s != [] {
      NormalizeEmptyIffAllFalsy(s[1..]);
      assert forall i :: 1 <= i < |s| ==> s[i] == s[1..][i - 1];
    }
  }

  /** A list of non-empty labels becomes the same labels, in order, all open. */
  lemma {:induction false} NormalizeLabels(s: seq<RawEntry>)
    requires forall i :: 0 <= i < |s| ==> s[i].Str? && s[i].str != ""
    ensures |NormalizeEntries(s)| == |s|
    ensures forall i :: 0 <= i < |s| ==> NormalizeEntries(s)[i] == Item(s[i].str, false)
  {
    if s != [] {
      assert forall i :: 1 <= i < |s| ==> s[i] == s[1..][i - 1];
      NormalizeLabels(s[1..]);
    }
  }

  /** Canonical items held in the form as plain `{ text, completed }` objects. */
  function Embed(items: seq<Item>): (s: seq<RawEntry>)
    ensures |s| == |items|
    ensures forall i :: 0 <= i < |s| ==> s[i] == Obj(Some(items[i].text), items[i].completed)
  {
    seq(|items|, i requires 0 <= i < |items| => Obj(Some(items[i].text), items[i].completed))
  }

  /** Re-normalising canonical items gives them back unchanged. */
  lemma {:induction false} NormalizeEmbedded(items: seq<Item>)
    ensures NormalizeEntries(Embed(items)) == items
  {
    if items != [] {
      assert Embed(items)[1..] == Embed(items[1..]);
      NormalizeEmbedded(items[1..]);
    }
  }

  /** `normalizeTodosForBackend` is idempotent. */
  lemma NormalizeIdempotent(todos: RawChecklist)
    ensures Normalize(Entries(Embed(Normalize(todos)))) == Normalize(todos)
  {
    NormalizeEmbedded(Normalize(todos));
  }

  /** `!!t.completed`: what the update view's checkbox shows for an entry. */
  predicate ShownCompleted(e: RawEntry)
  {
    e.Obj? && e.completed
  }

  /** `{ ...t, completed: !t.completed }` for an entry that is not null or
      undefined: the result is an object that keeps an object's text (a
      label, number or boolean spreads to no `text`), and whose completion
      is the negation of what was shown. */
  function ToggleEntry(e: RawEntry): (r: RawEntry)
    requires !e.Nullish?
    ensures r.Obj? && IsTruthy(r)
    ensures r.completed == !ShownCompleted(e)
    ensures r.text == (if e.Obj? then e.text else None)
  {
    match e
    case Obj(text, completed) => Obj(text, !completed)
    case _ => Obj(None, true)
  }

  /** `toggleTodoCompleted(index)` applied to `todoChecklist || []`. None
      stands for the TypeError JavaScript raises, which leaves the form
      unchanged: reading `completed` of a null or undefined entry at
      `index`, or calling `map` on a truthy value that is not an array. */
  function Toggle(todos: RawChecklist, index: int): (r: Option<seq<RawEntry>>)
    ensures r.None? <==> todos.NonArrayValue?
                         || (todos.Entries? && 0 <= index < |todos.entries| && todos.entries[index].Nullish?)
    ensures todos.NoList? ==> r == Some([])
    ensures todos.Entries? && r.Some? ==>
      && |r.value| == |todos.entries|
      && (forall j :: 0 <= j < |r.value| && j != index ==> r.value[j] == todos.entries[j])
      && (0 <= index < |r.value| ==> r.value[index] == ToggleEntry(todos.entries[index]))
  {
    match todos
    case NoList => Some([])
    case NonArrayValue(_) => None
    case Entries(s) =>
      if 0 <= index < |s| && s[index].Nullish? then None
      else Some(seq(|s|, j requires 0 <= j < |s| => if j == index then ToggleEntry(s[j]) else s[j]))
  }

  /** An index outside the list changes nothing. */
  lemma ToggleOutOfRange(s: seq<RawEntry>, index: int)
    requires index < 0 || index >= |s|
    ensures Toggle(Entries(s), index) == Some(s)
  {
    var r := Toggle(Entries(s), index).value;
    assert forall j :: 0 <= j < |s| ==> r[j] == s[j];
    assert r == s;
  }

  /** Toggling an object entry twice restores the list. */
  lemma ToggleTwice(s: seq<RawEntry>, index: int)
    requires 0 <= index < |s| && s[index].Obj?
    ensures Toggle(Entries(s), index).Some?
    ensures Toggle(Entries(Toggle(Entries(s), index).value), index) == Some(s)
  {
    var once := Toggle(Entries(s), index).value;
    var twice := Toggle(Entries(once), index).value;
    assert forall j :: 0 <= j < |s| ==> twice[j] == s[j];
    assert twice == s;
  }

  /** Normalising a list around one truthy entry. */
  lemma NormalizeAround(a: seq<RawEntry>, e: RawEntry, b: seq<RawEntry>)
    requires IsTruthy(e)
    ensures NormalizeEntries(a + [e] + b) == NormalizeEntries(a) + [Canonical(e)] + NormalizeEntries(b)
  {
    NormalizeAppend(a + [e], b);
    NormalizeAppend(a, [e]);
    assert [e][1..] == [];
  }

  /** Toggling an in-range entry replaces that one entry of the list. */
  lemma ToggleSplit(s: seq<RawEntry>, index: int)
    requires 0 <= index < |s| && !s[index].Nullish?
    ensures Toggle(Entries(s), index) == Some(s[..index] + [ToggleEntry(s[index])] + s[index + 1..])
  {
    var t := Toggle(Entries(s), index).value;
    var u := s[..index] + [ToggleEntry(s[index])] + s[index + 1..];
    assert |t| == |u|;
    forall j | 0 <= j < |t|
      ensures t[j] == u[j]
    {
      if j < index {
        assert u[j] == s[j];
      } else if j > index {
        assert u[j] == s[index + 1..][j - index - 1];
      }
    }
    assert t == u;
  }

  /** Replacing the middle element of a three-part sequence. */
  lemma UpdateMiddle(front: seq<Item>, x: Item, y: Item, back: seq<Item>)
    ensures (front + [x] + back)[|front| := y] == front + [y] + back
  {
  }

  /** Toggling an object entry flips the `completed` of its canonical item
      and of nothing else. */
  lemma ToggleNormalized(s: seq<RawEntry>, index: int)
    requires 0 <= index < |s| && s[index].Obj?
    ensures Toggle(Entries(s), index).Some?
    ensures var before := NormalizeEntries(s);
            var k := CountTruthy(s[..index]);
            k < |before| &&
            NormalizeEntries(Toggle(Entries(s), index).value)
              == before[k := before[k].(completed := !before[k].completed)]
  {
    var e := s[index];
    var a, b := s[..index], s[index + 1..];
    assert s == a + [e] + b;
    ToggleSplit(s, index);
    NormalizeAround(a, e, b);
    NormalizeAround(a, ToggleEntry(e), b);
    NormalizeLength(a);
    var item := Canonical(e);
    UpdateMiddle(NormalizeEntries(a), item, item.(completed := !item.completed), NormalizeEntries(b));
  }
}
