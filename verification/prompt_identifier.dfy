/** `PromptTemplateIdentifier`: the storage key of a prompt template, built from
    its name and the optional language, system code and model. */
module PromptIdentifier {
  import opened Wrappers
  import opened Strings

  /** The separator `str_identifier` puts between the present fields. */
  const IdentSep: string := "___$$$$___"

  datatype Identifier = Identifier(
    promptName: string,
    promptLanguage: Option<string>,
    sysCode: Option<string>,
    model: Option<string>)

  /** The `ValueError`s of building an identifier or a storage record. */
  datatype PromptError = NameNone | SeparatorInField | ContentNone | NotSameType | TemplateInvalid

  /** The fields in order name, language, system code, model, `None`s dropped. */
  function Present(name: string, language: Option<string>, sysCode: Option<string>, model: Option<string>): (r: seq<string>)
    ensures |r| >= 1 && r[0] == name
    ensures |r| == 1 <==> language.None? && sysCode.None? && model.None?
    ensures |r| == 1 + (if language.Some? then 1 else 0) + (if sysCode.Some? then 1 else 0) + (if model.Some? then 1 else 0)
    ensures language.Some? ==> r[1] == language.value
    ensures sysCode.Some? ==> r[|r| - (if model.Some? then 2 else 1)] == sysCode.value
    ensures model.Some? ==> r[|r| - 1] == model.value
  {
    [name]
      + (if language.Some? then [language.value] else [])
      + (if sysCode.Some? then [sysCode.value] else [])
      + (if model.Some? then [model.value] else [])
  }

  /** No present field contains the separator. */
  predicate SepFree(parts: seq<string>) {
    forall i :: 0 <= i < |parts| ==> !Contains(parts[i], IdentSep)
  }

  /** An identifier `__post_init__` accepts. */
  predicate Valid(id: Identifier) {
    SepFree(Present(id.promptName, id.promptLanguage, id.sysCode, id.model))
  }

  /** `PromptTemplateIdentifier(...)` with `__post_init__`: a missing name is
      refused first, then any present field containing the separator. */
  function MakeIdentifier(name: Option<string>, language: Option<string>, sysCode: Option<string>,
                          model: Option<string>): (r: Result<Identifier, PromptError>)
    ensures r == Failure(NameNone) <==> name.None?
    ensures r == Failure(SeparatorInField) <==>
      name.Some? && !SepFree(Present(name.value, language, sysCode, model))
    ensures r.Success? ==> r.value == Identifier(name.value, language, sysCode, model) && Valid(r.value)
  {
    if name.None? then Failure(NameNone)
    else if !SepFree(Present(name.value, language, sysCode, model)) then Failure(SeparatorInField)
    else Success(Identifier(name.value, language, sysCode, model))
  }

  /** `str_identifier`: the present fields joined by the separator. The string
      starts with the name, and equals it exactly when no optional field is set;
      otherwise the separator follows the name. */
  function StrIdentifier(id: Identifier): (r: string)
    ensures |id.promptName| <= |r| && r[..|id.promptName|] == id.promptName
    ensures r == id.promptName <==> id.promptLanguage.None? && id.sysCode.None? && id.model.None?
    ensures r != id.promptName ==> OccursAt(r, IdentSep, |id.promptName|)
  {
    var parts := Present(id.promptName, id.promptLanguage, id.sysCode, id.model);
    JoinFacts(parts, IdentSep);
    Join(parts, IdentSep)
  }

  /** What an optional field adds to the identifier string: the separator and
      its value when set, nothing otherwise. */
  function FieldSuffix(field: Option<string>): string {
    if field.Some? then IdentSep + field.value else ""
  }

  /** The identifier string field by field: the name, then the separator and
      the value of each set field, in the order language, system code, model. */
  lemma StrIdentifierFields(id: Identifier)
    ensures StrIdentifier(id) ==
      id.promptName + FieldSuffix(id.promptLanguage) + FieldSuffix(id.sysCode) + FieldSuffix(id.model)
  {
    var p0 := [id.promptName];
    var p1 := p0 + (if id.promptLanguage.Some? then [id.promptLanguage.value] else []);
    var p2 := p1 + (if id.sysCode.Some? then [id.sysCode.value] else []);
    var p3 := p2 + (if id.model.Some? then [id.model.value] else []);
    assert p3 == Present(id.promptName, id.promptLanguage, id.sysCode, id.model);
    var s1 := id.promptName + FieldSuffix(id.promptLanguage);
    var s2 := s1 + FieldSuffix(id.sysCode);
    assert Join(p0, IdentSep) == id.promptName;
    if id.promptLanguage.Some? { JoinSnoc(p0, id.promptLanguage.value, IdentSep); }
    assert Join(p1, IdentSep) == s1;
    if id.sysCode.Some? { JoinSnoc(p1, id.sysCode.value, IdentSep); }
    assert Join(p2, IdentSep) == s2;
    if id.model.Some? { JoinSnoc(p2, id.model.value, IdentSep); }
    assert Join(p3, IdentSep) == s2 + FieldSuffix(id.model);
  }

  /** With all fields set, the four values joined by the separator. */
  lemma StrIdentifierAllFields(n: string, l: string, s: string, m: string)
    ensures StrIdentifier(Identifier(n, Some(l), Some(s), Some(m))) == n + IdentSep + l + IdentSep + s + IdentSep + m
  {
    StrIdentifierFields(Identifier(n, Some(l), Some(s), Some(m)));
  }

  /** A join begins with its first part, and a join of two or more parts has the
      separator right after it. */
  lemma {:induction false} JoinFacts(parts: seq<string>, sep: string)
    requires parts != [] && sep != []
    ensures |parts[0]| <= |Join(parts, sep)| && Join(parts, sep)[..|parts[0]|] == parts[0]
    ensures |parts| == 1 <==> Join(parts, sep) == parts[0]
    ensures |parts| >= 2 ==> OccursAt(Join(parts, sep), sep, |parts[0]|)
  {
    if |parts| >= 2 {
      var s := Join(parts, sep);
      assert s == parts[0] + sep + Join(parts[1..], sep);
      assert s[..|parts[0]|] == parts[0];
      assert s[|parts[0]|..|parts[0]| + |sep|] == sep;
      assert |s| >= |parts[0]| + |sep|;
    }
  }

  /** For an accepted identifier, the separator shows up in its string exactly
      when some optional field is set. */
  lemma StrIdentifierHasSep(id: Identifier)
    requires Valid(id)
    ensures Contains(StrIdentifier(id), IdentSep) <==>
      id.promptLanguage.Some? || id.sysCode.Some? || id.model.Some?
  {
    var parts := Present(id.promptName, id.promptLanguage, id.sysCode, id.model);
    if |parts| >= 2 {
      JoinFacts(parts, IdentSep);
    } else {
      assert StrIdentifier(id) == parts[0];
    }
  }

  /** The identifier string does not say which optional field is set: a
      language and a model with the same value give the same string. */
  lemma StrIdentifierForgetsField(name: string, v: string)
    ensures StrIdentifier(Identifier(name, Some(v), None, None)) == StrIdentifier(Identifier(name, None, None, Some(v)))
  {
    assert Present(name, Some(v), None, None) == [name, v] == Present(name, None, None, Some(v));
  }

  /** Nor does refusing the separator make the string unambiguous: the separator
      overlaps itself, so two accepted identifiers can share a string. */
  lemma StrIdentifierCollision()
    ensures var a, b := Identifier("a", Some("$$$$___b"), None, None), Identifier("a___$$$$", Some("b"), None, None);
      && Valid(a) && Valid(b) && a != b && StrIdentifier(a) == StrIdentifier(b)
  {
    var a := Identifier("a", Some("$$$$___b"), None, None);
    var b := Identifier("a___$$$$", Some("b"), None, None);
    assert Present("a", Some("$$$$___b"), None, None) == ["a", "$$$$___b"];
    assert Present("a___$$$$", Some("b"), None, None) == ["a___$$$$", "b"];
    assert StrIdentifier(a) == "a___$$$$___$$$$___b";
    assert StrIdentifier(b) == "a___$$$$___$$$$___b";
    ShortLacksSep("a");
    ShortLacksSep("b");
    ShortLacksSep("$$$$___b");
    ShortLacksSep("a___$$$$");
  }

  lemma ShortLacksSep(s: string)
    requires |s| < |IdentSep|
    ensures !Contains(s, IdentSep)
  {
  }
}
