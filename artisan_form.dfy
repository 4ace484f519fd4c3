/** The administrator's artisan form (ArtisanFormModal in App.tsx): the
    comma-separated list fields, removing a gallery picture, and the check
    that the four required fields are filled before the form is saved. */
module ArtisanForm {
  import opened Common
  import opened Types

  // ---------------------------------------------------------------------
  // `value.split(',').map(item => item.trim()).filter(Boolean)`

  /** The characters `String.prototype.trim` strips: ECMAScript WhiteSpace
      (tab, vertical tab, form feed, space, no-break space, the byte-order
      mark and every other space separator) and LineTerminator. */
  predicate IsJsSpace(c: char) {
    c == '\t' || c == '\U{000B}' || c == '\U{000C}' || c == ' ' || c == '\U{00A0}' || c == '\U{FEFF}'
    || c == '\U{1680}' || ('\U{2000}' <= c <= '\U{200A}') || c == '\U{202F}' || c == '\U{205F}' || c == '\U{3000}'
    || c == '\n' || c == '\r' || c == '\U{2028}' || c == '\U{2029}'
  }

  /** `s.split(',')`: the pieces between commas, empty ones included; there
      is always at least one. */
  function Split(s: string): (parts: seq<string>)
    ensures |parts| >= 1
    ensures forall i :: 0 <= i < |parts| ==> ',' !in parts[i]
  {
    if s == [] then [""]
    else
      var rest := Split(s[1..]);
      if s[0] == ',' then [""] + rest
      else [[s[0]] + rest[0]] + rest[1..]
  }

  /** `parts.join(sep)` */
  function Join(parts: seq<string>, sep: string): string {
    if parts == [] then ""
    else if |parts| == 1 then parts[0]
    else parts[0] + sep + Join(parts[1..], sep)
  }

  /** Joining the pieces back with commas gives the original text. */
  lemma {:induction false} JoinSplit(s: string)
    ensures Join(Split(s), ",") == s
  {
    if s != [] {
      JoinSplit(s[1..]);
      var rest := Split(s[1..]);
      if s[0] == ',' {
        assert ([""] + rest)[1..] == rest;
      } else {
        if |rest| > 1 {
          assert ([[s[0]] + rest[0]] + rest[1..])[1..] == rest[1..];
        }
        assert s == [s[0]] + s[1..];
      }
    }
  }

  /** Splitting comma-joined pieces that hold no comma gives the pieces back. */
  lemma {:induction false} SplitJoin(parts: seq<string>)
    requires |parts| >= 1
    requires forall i :: 0 <= i < |parts| ==> ',' !in parts[i]
    ensures Split(Join(parts, ",")) == parts
  {
    if |parts| == 1 {
      SplitNoComma(parts[0]);
    } else {
      SplitJoin(parts[1..]);
      SplitAppend(parts[0], Join(parts[1..], ","));
      assert Join(parts, ",") == parts[0] + ("," + Join(parts[1..], ","));
      assert [parts[0]] + parts[1..] == parts;
    }
  }

  lemma {:induction false} SplitNoComma(s: string)
    requires ',' !in s
    ensures Split(s) == [s]
  {
    if s != [] {
      SplitNoComma(s[1..]);
      assert s == [s[0]] + s[1..];
    }
  }

  lemma {:induction false} SplitAppend(a: string, b: string)
    requires ',' !in a
    ensures Split(a + "," + b) == [a] + Split(b)
  {
    if a == [] {
      assert a + "," + b == [','] + b;
      assert ([','] + b)[1..] == b;
    } else {
      assert (a + "," + b)[1..] == a[1..] + "," + b;
      SplitAppend(a[1..], b);
      assert a == [a[0]] + a[1..];
    }
  }

  /** How many whitespace characters `s` starts with. */
  function LeadingSpaces(s: string): (i: nat)
    ensures i <= |s| && (i == |s| || !IsJsSpace(s[i]))
    ensures forall k :: 0 <= k < i ==> IsJsSpace(s[k])
  {
    if s != [] && IsJsSpace(s[0]) then
      var i := 1 + LeadingSpaces(s[1..]);
      assert forall k :: 1 <= k < i ==> s[k] == s[1..][k - 1];
      i
    else 0
  }

  /** Where the whitespace that `s` ends with begins. */
  function TrailingSpaces(s: string): (j: nat)
    ensures j <= |s| && (j == 0 || !IsJsSpace(s[j - 1]))
    ensures forall k :: j <= k < |s| ==> IsJsSpace(s[k])
  {
    if s != [] && IsJsSpace(s[|s| - 1]) then
      var j := TrailingSpaces(s[..|s| - 1]);
      assert forall k :: j <= k < |s| - 1 ==> s[k] == s[..|s| - 1][k];
      j
    else |s|
  }

  /** A string with no whitespace at either end. */
  predicate Trimmed(s: string) {
    s == [] || (!IsJsSpace(s[0]) && !IsJsSpace(s[|s| - 1]))
  }

  /** `s.trim()`: the middle of `s` left after dropping whitespace at both
      ends; what is dropped is all whitespace and what is left has none at
      either end. */
  function Trim(s: string): (t: string)
    ensures Trimmed(t)
    ensures exists i, j :: 0 <= i <= j <= |s| && t == s[i..j] &&
                           (forall k :: 0 <= k < i ==> IsJsSpace(s[k])) && (forall k :: j <= k < |s| ==> IsJsSpace(s[k]))
  {
    var i := LeadingSpaces(s);
    var u := s[i..];
    var j := TrailingSpaces(u);
    assert u[..j] == s[i..i + j];
    assert forall k :: i + j <= k < |s| ==> s[k] == u[k - i];
    u[..j]
  }

  /** A trimmed string is its own trim, with or without one leading space. */
  lemma TrimTrimmed(x: string)
    requires x != [] && Trimmed(x)
    ensures Trim(x) == x && Trim(" " + x) == x
  {
    assert (" " + x)[1..] == x;
  }

  /** A well-formed list entry: not empty, no comma, no outer whitespace. */
  predicate IsEntry(x: string) {
    x != [] && ',' !in x && Trimmed(x)
  }

  /** A character `s` lacks is also missing from its trim. */
  lemma TrimKeepsOut(s: string, c: char)
    requires c !in s
    ensures c !in Trim(s)
  {
  }

  /** `.map(item => item.trim())` */
  function TrimAll(parts: seq<string>): (r: seq<string>)
    ensures |r| == |parts| && forall i :: 0 <= i < |parts| ==> r[i] == Trim(parts[i])
  {
    seq(|parts|, i requires 0 <= i < |parts| => Trim(parts[i]))
  }

  /** Trimming comma-free pieces gives comma-free, trimmed pieces. */
  lemma TrimAllNoComma(parts: seq<string>)
    requires forall i :: 0 <= i < |parts| ==> ',' !in parts[i]
    ensures forall x :: x in TrimAll(parts) ==> ',' !in x && Trimmed(x)
  {
    var r := TrimAll(parts);
    forall x | x in r ensures ',' !in x && Trimmed(x) {
      var i :| 0 <= i < |r| && r[i] == x;
      TrimKeepsOut(parts[i], ',');
    }
  }

  /** `filter(Boolean)` on strings: only the empty string is falsy. */
  function NotEmpty(s: string): bool {
    s != ""
  }

  /** Dropping the empty pieces from comma-free, trimmed pieces leaves
      well-formed entries. */
  lemma FilterEntries(trimmed: seq<string>)
    requires forall x :: x in trimmed ==> ',' !in x && Trimmed(x)
    ensures forall i :: 0 <= i < |Filter(NotEmpty, trimmed)| ==> IsEntry(Filter(NotEmpty, trimmed)[i])
  {
    var r := Filter(NotEmpty, trimmed);
    forall i | 0 <= i < |r| ensures IsEntry(r[i]) {
      assert r[i] in r;
    }
  }

  /** `handleArrayChange`'s parse: split on commas, trim every piece, drop
      the empty ones. Every entry it yields is well formed. */
  function ParseList(value: string): (entries: seq<string>)
    ensures forall i :: 0 <= i < |entries| ==> IsEntry(entries[i])
  {
    var trimmed := TrimAll(Split(value));
    TrimAllNoComma(Split(value));
    FilterEntries(trimmed);
    Filter(NotEmpty, trimmed)
  }

  /** The list field's default text is `entries.join(', ')`; parsing that
      text gives the same entries back, so an untouched field saves the list
      it showed. */
  lemma ParseJoinedList(entries: seq<string>)
    requires forall i :: 0 <= i < |entries| ==> IsEntry(entries[i])
    ensures ParseList(Join(entries, ", ")) == entries
  {
    if entries == [] {
      ParseEmpty();
    } else {
      var spaced := Spaced(entries);
      JoinSpaced(entries);
      SplitJoin(spaced);
      TrimAllSpaced(entries);
      FilterAll(NotEmpty, entries);
    }
  }

  /** An empty field is an empty list. */
  lemma ParseEmpty()
    ensures ParseList("") == []
  {
    assert Split("") == [""];
    assert TrimAll([""]) == [""];
    FilterNone(NotEmpty, [""]);
  }

  /** Trimming the pieces between the commas of `join(', ')` gives the entries. */
  lemma TrimAllSpaced(entries: seq<string>)
    requires entries != []
    requires forall i :: 0 <= i < |entries| ==> IsEntry(entries[i])
    ensures TrimAll(Spaced(entries)) == entries
  {
    var spaced := Spaced(entries);
    forall i | 0 <= i < |spaced| ensures TrimAll(spaced)[i] == entries[i] {
      TrimTrimmed(entries[i]);
    }
  }

  /** The entries as `join(', ')` lays them out between the commas: every
      entry after the first carries the leading space. */
  function Spaced(entries: seq<string>): (r: seq<string>)
    requires entries != []
    ensures |r| == |entries| && r[0] == entries[0]
    ensures forall i :: 1 <= i < |r| ==> r[i] == " " + entries[i]
  {
    [entries[0]] + seq(|entries| - 1, i requires 0 <= i < |entries| - 1 => " " + entries[i + 1])
  }

  lemma {:induction false} JoinSpaced(entries: seq<string>)
    requires entries != []
    requires forall i :: 0 <= i < |entries| ==> ',' !in entries[i]
    ensures Join(entries, ", ") == Join(Spaced(entries), ",")
    ensures forall i :: 0 <= i < |Spaced(entries)| ==> ',' !in Spaced(entries)[i]
  {
    SpacedNoComma(entries);
    if |entries| > 1 {
      var tail := entries[1..];
      JoinSpaced(tail);
      SpacedTail(entries);
      JoinFirstSpace(Spaced(tail));
      assert Join(entries, ", ") == entries[0] + "," + (" " + Join(tail, ", "));
    }
  }

  lemma SpacedNoComma(entries: seq<string>)
    requires entries != []
    requires forall i :: 0 <= i < |entries| ==> ',' !in entries[i]
    ensures forall i :: 0 <= i < |Spaced(entries)| ==> ',' !in Spaced(entries)[i]
  {
    var sp := Spaced(entries);
    forall i | 0 <= i < |sp| ensures ',' !in sp[i] {
      if i > 0 {
        assert sp[i] == " " + entries[i];
      }
    }
  }

  /** After the first entry, the spaced pieces are the spaced tail with a
      space before its first piece. */
  lemma SpacedTail(entries: seq<string>)
    requires |entries| > 1
    ensures Spaced(entries)[1..] == [" " + Spaced(entries[1..])[0]] + Spaced(entries[1..])[1..]
  {
  }

  lemma JoinFirstSpace(parts: seq<string>)
    requires parts != []
    ensures Join([" " + parts[0]] + parts[1..], ",") == " " + Join(parts, ",")
  {
    var q := [" " + parts[0]] + parts[1..];
    if |parts| > 1 {
      assert q[1..] == parts[1..];
    }
  }

  // ---------------------------------------------------------------------
  // The form

  datatype ListField = Tags | Services

  /** `gallery.filter((_, i) => i !== index)`: the picture at `index` is
      dropped; an index outside the gallery drops nothing. */
  function RemoveAt(gallery: seq<string>, index: int): (r: seq<string>)
    ensures 0 <= index < |gallery| ==> r == gallery[..index] + gallery[index + 1..]
    ensures !(0 <= index < |gallery|) ==> r == gallery
  {
    if gallery == [] then []
    else
      var rest := RemoveAt(gallery[1..], index - 1);
      if index == 0 then
        assert gallery[1..] == gallery[..0] + gallery[1..];
        rest
      else
        [gallery[0]] + rest
  }

  const FORM_ERROR: string := "الرجاء تعبئة الحقول الأساسية: الاسم، الهاتف، الموقع، والنبذة التعريفية."

  /** The guard of `handleSubmit`: a required field is empty. */
  predicate MissingRequired(p: Profile) {
    p.name == "" || p.phone == "" || p.location == "" || p.bio == ""
  }

  /** `artisanToEdit || initialArtisanState`: an artisan opened for editing
      keeps its id and reviews; otherwise the form starts blank, and a
      blank form cannot be saved until the required fields are typed. */
  function StartingForm(artisanToEdit: Option<Artisan>): (f: FormData)
    ensures artisanToEdit.Some? ==> f == Existing(artisanToEdit.value) && f.Fields() == artisanToEdit.value.profile
    ensures artisanToEdit.None? ==> f.Fresh? && f.Fields() == INITIAL_PROFILE && MissingRequired(f.Fields())
  {
    if artisanToEdit.Some? then Existing(artisanToEdit.value) else Fresh(INITIAL_PROFILE)
  }

  class ArtisanFormModal {
    var artisanToEdit: Option<Artisan>
    var artisan: FormData
    var formError: string

    constructor (artisanToEdit: Option<Artisan>)
      ensures this.artisanToEdit == artisanToEdit
      ensures artisan == StartingForm(artisanToEdit)
      ensures formError == ""
    {
      this.artisanToEdit := artisanToEdit;
      artisan := StartingForm(artisanToEdit);
      formError := "";
    }

    /** The effect on `artisanToEdit`: the form is reloaded from the new
        artisan, or emptied; the error line stays as it was. */
    method ArtisanToEditChanged(a: Option<Artisan>)
      modifies this`artisanToEdit, this`artisan
      ensures artisanToEdit == a && artisan == StartingForm(a)
    {
      artisanToEdit := a;
      artisan := StartingForm(a);
    }

    /** `handleArrayChange`: the typed text, parsed, becomes the field. */
    method HandleArrayChange(field: ListField, value: string)
      modifies this`artisan
      ensures artisan == old(artisan).WithProfile(
        if field == Tags then old(artisan).Fields().(tags := ParseList(value))
        else old(artisan).Fields().(services := ParseList(value)))
    {
      var arr := ParseList(value);
      var p := artisan.Fields();
      if field == Tags {
        artisan := artisan.WithProfile(p.(tags := arr));
      } else {
        artisan := artisan.WithProfile(p.(services := arr));
      }
    }

    /** `removeImage` */
    method RemoveImage(index: int)
      modifies this`artisan
      ensures artisan == old(artisan).WithProfile(old(artisan).Fields().(gallery := RemoveAt(old(artisan).Fields().gallery, index)))
    {
      var p := artisan.Fields();
      artisan := artisan.WithProfile(p.(gallery := RemoveAt(p.gallery, index)));
    }

    /** `handleSubmit`: with a required field empty the form shows the error
        and saves nothing; otherwise it clears the error and hands the whole
        form to `onSave`. */
    method HandleSubmit() returns (saved: Option<FormData>)
      modifies this`formError
      ensures saved.None? <==> MissingRequired(artisan.Fields())
      ensures saved.None? ==> formError == FORM_ERROR
      ensures saved.Some? ==> saved.value == artisan && formError == ""
    {
      var p := artisan.Fields();
      if p.name == "" || p.phone == "" || p.location == "" || p.bio == "" {
        formError := FORM_ERROR;
        return None;
      }
      formError := "";
      saved := Some(artisan);
    }

    /** `handleConfirmDelete`: only an artisan opened for editing can be
        deleted, and it is deleted by its id. */
    method HandleConfirmDelete() returns (deleted: Option<string>)
      ensures deleted == if artisanToEdit.Some? then Some(artisanToEdit.value.id) else None
    {
      if artisanToEdit.Some? {
        deleted := Some(artisanToEdit.value.id);
      } else {
        deleted := None;
      }
    }
  }
}
