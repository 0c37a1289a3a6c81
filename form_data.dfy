/** `objectToFormData` of utils/formData.ts: flatten a plain object into the
    ordered entry list of a `FormData`. */
module FormData {
  import opened JsValues

  /** What a `FormData` entry holds: a file, or a string. */
  datatype FormValue = Blob(handle: nat) | Text(s: string)

  datatype FormEntry = FormEntry(name: string, value: FormValue)

  /** What `formData.append(name, v)` stores for `v`: a file as itself,
      anything else converted by `String`. */
  function Coerce(v: JsValue): FormValue {
    if v.File? then Blob(v.handle) else Text(ToJsString(v))
  }

  /** Every item of an array under one name, in array order, unfiltered. */
  function ItemEntries(name: string, items: seq<JsValue>): (es: seq<FormEntry>)
    ensures |es| == |items|
    ensures forall k :: 0 <= k < |es| ==> es[k] == FormEntry(name, Coerce(items[k]))
  {
    if items == [] then [] else [FormEntry(name, Coerce(items[0]))] + ItemEntries(name, items[1..])
  }

  /** The entries one key-value pair contributes: none for null or
      undefined, one per item under `key[]` for an array, the file itself for
      a file, the string form otherwise. */
  function EntriesFor(key: string, value: JsValue): (es: seq<FormEntry>)
    ensures Nullish(value) ==> es == []
    ensures value.Arr? ==> |es| == |value.items|
                           && forall k :: 0 <= k < |es| ==> es[k] == FormEntry(key + "[]", Coerce(value.items[k]))
    ensures !Nullish(value) && !value.Arr? ==> es == [FormEntry(key, Coerce(value))]
  {
    if Nullish(value) then []
    else if value.Arr? then ItemEntries(key + "[]", value.items)
    else if value.File? then [FormEntry(key, Blob(value.handle))]
    else [FormEntry(key, Text(ToJsString(value)))]
  }

  function FieldEntries(field: (string, JsValue)): seq<FormEntry> {
    EntriesFor(field.0, field.1)
  }

  /** The pieces `f` makes of each element, one after the other. */
  function Concat<A, B>(xs: seq<A>, f: A -> seq<B>): seq<B> {
    if xs == [] then [] else Concat(xs[..|xs| - 1], f) + f(xs[|xs| - 1])
  }

  lemma {:induction false} ConcatAppend<A, B>(xs: seq<A>, ys: seq<A>, f: A -> seq<B>)
    ensures Concat(xs + ys, f) == Concat(xs, f) + Concat(ys, f)
  {
    if ys == [] {
      assert xs + ys == xs;
    } else {
      var n := |ys| - 1;
      assert (xs + ys)[..|xs + ys| - 1] == xs + ys[..n];
      assert (xs + ys)[|xs + ys| - 1] == ys[n];
      ConcatAppend(xs, ys[..n], f);
    }
  }

  /** The entries of the whole object, pair after pair. An object whose
      fields are all null or undefined gives an empty form. */
  function FormEntries(fields: seq<(string, JsValue)>): (es: seq<FormEntry>)
    ensures (forall k :: 0 <= k < |fields| ==> Nullish(fields[k].1)) ==> es == []
  {
    FormEntriesNames(fields);
    Concat(fields, FieldEntries)
  }

  /** Every entry is named after a field of the object, as `key` or `key[]`. */
  lemma {:induction false} FormEntriesNames(fields: seq<(string, JsValue)>)
    ensures forall e :: e in Concat(fields, FieldEntries) ==>
              exists k :: 0 <= k < |fields| && (e.name == fields[k].0 || e.name == fields[k].0 + "[]")
    ensures (forall k :: 0 <= k < |fields| ==> Nullish(fields[k].1)) ==> Concat(fields, FieldEntries) == []
  {
    if fields != [] {
      var n := |fields| - 1;
      FormEntriesNames(fields[..n]);
      forall e | e in Concat(fields, FieldEntries)
        ensures exists k :: 0 <= k < |fields| && (e.name == fields[k].0 || e.name == fields[k].0 + "[]")
      {
        if e in Concat(fields[..n], FieldEntries) {
          var k :| 0 <= k < n && (e.name == fields[..n][k].0 || e.name == fields[..n][k].0 + "[]");
          assert fields[..n][k] == fields[k];
        } else {
          assert e in FieldEntries(fields[n]);
          var j :| 0 <= j < |FieldEntries(fields[n])| && FieldEntries(fields[n])[j] == e;
          assert e.name == fields[n].0 || e.name == fields[n].0 + "[]";
        }
      }
      if forall k :: 0 <= k < |fields| ==> Nullish(fields[k].1) {
        assert forall k :: 0 <= k < n ==> fields[..n][k] == fields[k];
        assert Nullish(fields[n].1);
      }
    }
  }

  /** The nested loops of `objectToFormData`, appending to a fresh form. */
  method ObjectToFormData(data: seq<(string, JsValue)>) returns (form: seq<FormEntry>)
    ensures form == FormEntries(data)
  {
    form := [];
    var i := 0;
    while i < |data|
      invariant 0 <= i <= |data|
      invariant form == FormEntries(data[..i])
    {
      var (key, value) := data[i];
      if value != Undefined && value != Null {
        if value.Arr? {
          var items := value.items;
          ghost var before := form;
          var j := 0;
          while j < |items|
            invariant 0 <= j <= |items|
            invariant form == before + ItemEntries(key + "[]", items[..j])
          {
            ItemEntriesSnoc(key + "[]", items[..j], items[j]);
            assert items[..j + 1] == items[..j] + [items[j]];
            form := form + [FormEntry(key + "[]", Coerce(items[j]))];
            j := j + 1;
          }
          assert items[..j] == items;
        } else if value.File? {
          form := form + [FormEntry(key, Blob(value.handle))];
        } else {
          form := form + [FormEntry(key, Text(ToJsString(value)))];
        }
      }
      assert form == FormEntries(data[..i]) + FieldEntries(data[i]);
      FormEntriesSnoc(data[..i], data[i]);
      assert data[..i + 1] == data[..i] + [data[i]];
      i := i + 1;
    }
    assert data[..i] == data;
  }

  lemma {:induction false} ItemEntriesSnoc(name: string, items: seq<JsValue>, x: JsValue)
    ensures ItemEntries(name, items + [x]) == ItemEntries(name, items) + [FormEntry(name, Coerce(x))]
  {
    if items == [] {
      assert items + [x] == [x];
    } else {
      assert (items + [x])[1..] == items[1..] + [x];
      ItemEntriesSnoc(name, items[1..], x);
    }
  }

  /** One more field adds its own entries at the end. */
  lemma FormEntriesSnoc(fields: seq<(string, JsValue)>, field: (string, JsValue))
    ensures FormEntries(fields + [field]) == FormEntries(fields) + EntriesFor(field.0, field.1)
  {
    var all := fields + [field];
    assert all[..|all| - 1] == fields;
    assert all[|all| - 1] == field;
  }

  /** The form of two objects written one after the other is the two forms one
      after the other: entry order follows field order. */
  lemma FormEntriesAppend(a: seq<(string, JsValue)>, b: seq<(string, JsValue)>)
    ensures FormEntries(a + b) == FormEntries(a) + FormEntries(b)
  {
    ConcatAppend(a, b, FieldEntries);
  }

  /** A null or undefined field adds no entry wherever it stands. */
  lemma NullishFieldIgnored(a: seq<(string, JsValue)>, key: string, value: JsValue, b: seq<(string, JsValue)>)
    requires Nullish(value)
    ensures FormEntries(a + [(key, value)] + b) == FormEntries(a + b)
  {
    FormEntriesAppend(a + [(key, value)], b);
    FormEntriesSnoc(a, (key, value));
    FormEntriesAppend(a, b);
  }

  /** An array field of n items adds exactly n entries named `key[]`, in array
      order, null items included as their string forms. */
  lemma ArrayFieldEntries(key: string, items: seq<JsValue>)
    ensures var es := FormEntries([(key, Arr(items))]);
            && |es| == |items|
            && forall k :: 0 <= k < |es| ==> es[k].name == key + "[]" && es[k].value == Coerce(items[k])
  {
    FormEntriesSnoc([], (key, Arr(items)));
    assert [] + [(key, Arr(items))] == [(key, Arr(items))];
  }

  /** Concretely: an array holding null gives the entry "null", a null field
      gives nothing, a file stays a file and a number becomes its digits. */
  lemma SampleForm()
    ensures FormEntries([("tags", Arr([Null])), ("note", Null), ("cover", File(7)), ("count", Num(3))])
            == [FormEntry("tags[]", Text("null")), FormEntry("cover", Blob(7)), FormEntry("count", Text("3"))]
  {
    var tags, note, cover, count := ("tags", Arr([Null])), ("note", Null), ("cover", File(7)), ("count", Num(3));
    var e1, e3, e4 := FormEntry("tags[]", Text("null")), FormEntry("cover", Blob(7)), FormEntry("count", Text("3"));
    assert FormEntries([tags]) == [e1] by {
      assert "tags" + "[]" == "tags[]";
      assert EntriesFor(tags.0, tags.1) == [e1];
      FormEntriesSnoc([], tags);
      assert [] + [tags] == [tags];
    }
    assert FormEntries([tags, note]) == [e1] by {
      assert EntriesFor(note.0, note.1) == [];
      FormEntriesSnoc([tags], note);
      assert [tags] + [note] == [tags, note];
    }
    assert FormEntries([tags, note, cover]) == [e1, e3] by {
      assert EntriesFor(cover.0, cover.1) == [e3];
      FormEntriesSnoc([tags, note], cover);
      assert [tags, note] + [cover] == [tags, note, cover];
    }
    assert FormEntries([tags, note, cover, count]) == [e1, e3, e4] by {
      assert EntriesFor(count.0, count.1) == [e4] by {
        assert ToJsString(Num(3)) == "3";
      }
      FormEntriesSnoc([tags, note, cover], count);
      assert [tags, note, cover] + [count] == [tags, note, cover, count];
    }
  }
}
