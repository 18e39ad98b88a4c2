/** Adding and deleting fields of one form (`hooks/useFieldManagement.ts`):
    builds the `addField` payload from the modal's values, turning the
    comma-separated options text into a list. */
module FieldManagement {
  import opened Wrappers
  import opened Seqs
  import opened Strings
  import opened FieldsSlice
  import FieldForm

  function TrimPiece(): string -> string { (o: string) => Trim(o) }

  function NonEmpty(): string -> bool { (o: string) => o != "" }

  /** `options?.split(',').map(opt => opt.trim()).filter(Boolean)`. */
  function ParseOptions(options: Option<string>): (r: Option<seq<string>>)
    ensures r.None? <==> options.None?
  {
    if options.None? then None
    else Some(Filter(Map(Split(options.value, ','), TrimPiece()), NonEmpty()))
  }

  /** Characters of an occurrence are characters of the string. */
  lemma OccurrenceChars(s: string, p: string, i: int, c: char)
    requires OccursAt(s, p, i) && c !in s
    ensures c !in p
  {
  }

  /** Every parsed option is non-empty, carries no surrounding white space
      and no comma, and is the trimmed text of one comma-separated piece. */
  lemma {:induction false} ParsedOptionsClean(s: string)
    ensures forall o :: o in ParseOptions(Some(s)).value ==>
              o != "" && !IsSpace(o[0]) && !IsSpace(o[|o| - 1]) && ',' !in o &&
              exists piece :: piece in Split(s, ',') && Trim(piece) == o
  {
    var pieces := Split(s, ',');
    var trimmed := Map(pieces, TrimPiece());
    forall o | o in ParseOptions(Some(s)).value
      ensures o != "" && !IsSpace(o[0]) && !IsSpace(o[|o| - 1]) && ',' !in o
      ensures exists piece :: piece in pieces && Trim(piece) == o
    {
      FilterMembers(trimmed, NonEmpty(), o);
      var k :| 0 <= k < |trimmed| && trimmed[k] == o;
      assert pieces[k] in pieces;
      var i :| OccursAt(pieces[k], o, i);
      OccurrenceChars(pieces[k], o, i, ',');
    }
  }

  /** No non-blank piece is dropped, the kept options appear in the order of
      the text, and each trimmed text occurs as often as among the trimmed
      pieces (duplicates are kept); only empty texts are removed. */
  lemma {:induction false} ParsedOptionsComplete(s: string)
    ensures forall piece :: piece in Split(s, ',') && !IsBlank(piece) ==> Trim(piece) in ParseOptions(Some(s)).value
    ensures IsSubsequence(ParseOptions(Some(s)).value, Map(Split(s, ','), TrimPiece()))
    ensures multiset(ParseOptions(Some(s)).value) == multiset(Map(Split(s, ','), TrimPiece()))["" := 0]
  {
    var pieces := Split(s, ',');
    var trimmed := Map(pieces, TrimPiece());
    var r := Filter(trimmed, NonEmpty());
    forall x ensures multiset(r)[x] == multiset(trimmed)["" := 0][x] {
      FilterCount(trimmed, NonEmpty(), x);
    }
    forall piece | piece in pieces && !IsBlank(piece)
      ensures Trim(piece) in ParseOptions(Some(s)).value
    {
      var k :| 0 <= k < |pieces| && pieces[k] == piece;
      assert trimmed[k] == Trim(piece);
      FilterMembers(trimmed, NonEmpty(), Trim(piece));
    }
    FilterIsSubsequence(trimmed, NonEmpty());
  }

  /** Text without a comma is one piece. */
  lemma {:induction false} SplitWithoutSeparator(s: string, sep: char)
    requires sep !in s
    ensures Split(s, sep) == [s]
  {
    if s != [] {
      assert sep !in s[1..];
      SplitWithoutSeparator(s[1..], sep);
      assert [s[0]] + s[1..] == s;
    }
  }

  /** Options text without a comma gives its trimmed text as the only option,
      or no option at all when it is blank. */
  lemma SingleOption(s: string)
    requires ',' !in s
    ensures ParseOptions(Some(s)) == Some(if IsBlank(s) then [] else [Trim(s)])
  {
    SplitWithoutSeparator(s, ',');
    assert Map([s], TrimPiece()) == [Trim(s)];
  }

  /** A blank piece between two commas is dropped. */
  lemma BlankPieceDropped()
    ensures ParseOptions(Some("a, ,b")) == Some(["a", "b"])
  {
    assert Split("", ',') == [""];
    assert "b"[1..] == "";
    assert ['b'] + "" == "b";
    assert Split("b", ',') == ["b"];
    assert ",b"[1..] == "b";
    assert Split(",b", ',') == ["", "b"];
    assert " ,b"[1..] == ",b";
    assert [' '] + "" == " ";
    assert ["", "b"][1..] == ["b"];
    assert Split(" ,b", ',') == [" ", "b"];
    assert ", ,b"[1..] == " ,b";
    assert Split(", ,b", ',') == ["", " ", "b"];
    assert "a, ,b"[1..] == ", ,b";
    assert ['a'] + "" == "a";
    assert ["", " ", "b"][1..] == [" ", "b"];
    assert Split("a, ,b", ',') == ["a", " ", "b"];
    assert IsSpace(' ') && !IsSpace('a') && !IsSpace('b');
    assert Trim("a") == "a" && Trim(" ") == "" && Trim("b") == "b";
    var trimmed := Map(["a", " ", "b"], TrimPiece());
    assert trimmed == ["a", "", "b"];
    assert Filter(trimmed, NonEmpty()) == ["a", "b"] by {
      assert trimmed[1..] == ["", "b"] && trimmed[2..] == ["b"] && trimmed[3..] == [];
    }
  }

  /** The `addField` payload for the modal's values. */
  function FieldPayload(formId: string, values: FieldForm.FieldFormValues): FieldCreatePayload
  {
    FieldCreatePayload(formId, values.fieldType, values.labelText, values.placeholder,
                       values.required, ParseOptions(values.options), values.defaultValue)
  }

  /** The hook, bound to one form and the store it dispatches to. */
  class FieldManager {
    const formId: string
    const store: FieldsState

    constructor (formId: string, store: FieldsState)
      ensures this.formId == formId && this.store == store
    {
      this.formId := formId;
      this.store := store;
    }

    /** `addFieldToForm`: appends the field to this form. */
    method AddFieldToForm(values: FieldForm.FieldFormValues, freshId: string)
      requires FieldIdUnused(store.fields, freshId)
      modifies store
      ensures store.fields == old(store.fields) + [NewField(FieldPayload(formId, values), freshId)]
      ensures store.status == old(store.status) && store.error == old(store.error)
      ensures old(store.Valid()) ==> store.Valid()
    {
      var options := ParseOptions(values.options);
      store.AddField(FieldCreatePayload(formId, values.fieldType, values.labelText, values.placeholder,
                                        values.required, options, values.defaultValue), freshId);
    }

    /** `deleteFieldFromForm`: nothing happens for an empty id. */
    method DeleteFieldFromForm(fieldId: string)
      modifies store
      ensures fieldId == "" ==> store.fields == old(store.fields)
      ensures fieldId != "" ==> store.fields == Filter(old(store.fields), FieldIdIsNot(fieldId))
      ensures store.status == old(store.status) && store.error == old(store.error)
      ensures old(store.Valid()) ==> store.Valid()
    {
      if fieldId != "" {
        store.DeleteField(fieldId);
      }
    }
  }

  /** A field added through the hook is selected for its form, last. */
  lemma AddedFieldIsSelected(fields: seq<Field>, formId: string, values: FieldForm.FieldFormValues, freshId: string)
    ensures var after := fields + [NewField(FieldPayload(formId, values), freshId)];
      SelectFieldsByFormId(after, formId) ==
      SelectFieldsByFormId(fields, formId) + [NewField(FieldPayload(formId, values), freshId)]
  {
    var added := NewField(FieldPayload(formId, values), freshId);
    FilterAppend(fields, [added], InForm(formId));
  }
}
