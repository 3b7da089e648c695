/** `StoragePromptTemplate`: the stored form of a prompt template, its checks, and
    its conversions to and from `PromptTemplate`. */
module StoragePrompt {
  import opened Wrappers
  import opened Strings
  import opened PromptIdentifier

  /** A stored prompt template. `content` is a plain string because the
      constructor refuses `None`. */
  datatype StorageTemplate = StorageTemplate(
    promptName: string,
    content: string,
    promptLanguage: Option<string>,
    promptFormat: Option<string>,
    inputVariables: Option<string>,
    model: Option<string>,
    chatScene: Option<string>,
    subChatScene: Option<string>,
    promptType: Option<string>,
    userName: Option<string>,
    sysCode: Option<string>,
    identifier: Identifier)

  /** The fields of `PromptTemplate` the conversions touch. The model declares
      `input_variables` a list and `template_format` a string, so neither can be
      `None`; the template and its scene can. */
  datatype PromptTemplate = PromptTemplate(
    inputVariables: seq<string>,
    template: Option<string>,
    templateScene: Option<string>,
    templateFormat: string)

  /** Python's `a or b` on optional strings. */
  function Or(a: Option<string>, b: Option<string>): (r: Option<string>)
    ensures Truthy(a) ==> r == a
    ensures !Truthy(a) ==> r == b
  {
    if Truthy(a) then a else b
  }

  /** The identifier a record carries is the one built from its own fields. */
  predicate Consistent(s: StorageTemplate) {
    s.identifier == Identifier(s.promptName, s.promptLanguage, s.sysCode, s.model)
  }

  /** `StoragePromptTemplate(...)` with `__post_init__`: the identifier is built
      first (so its errors come first), then `_check` refuses a missing content. */
  function NewStorageTemplate(promptName: Option<string>, content: Option<string>,
                              promptLanguage: Option<string>, promptFormat: Option<string>,
                              inputVariables: Option<string>, model: Option<string>,
                              chatScene: Option<string>, subChatScene: Option<string>,
                              promptType: Option<string>, userName: Option<string>,
                              sysCode: Option<string>): (r: Result<StorageTemplate, PromptError>)
    ensures r == Failure(NameNone) <==> promptName.None?
    ensures r == Failure(SeparatorInField) <==>
      promptName.Some? && !SepFree(Present(promptName.value, promptLanguage, sysCode, model))
    ensures r == Failure(ContentNone) <==>
      promptName.Some? && SepFree(Present(promptName.value, promptLanguage, sysCode, model)) && content.None?
    ensures r.Success? ==>
      && Consistent(r.value) && Valid(r.value.identifier)
      && r.value.promptName == promptName.value && r.value.content == content.value
      && r.value.promptLanguage == promptLanguage && r.value.promptFormat == promptFormat
      && r.value.inputVariables == inputVariables && r.value.model == model
      && r.value.chatScene == chatScene && r.value.subChatScene == subChatScene
      && r.value.promptType == promptType && r.value.userName == userName && r.value.sysCode == sysCode
  {
    var id :- MakeIdentifier(promptName, promptLanguage, sysCode, model);
    if content.None? then Failure(ContentNone)
    else Success(StorageTemplate(promptName.value, content.value, promptLanguage, promptFormat,
                                 inputVariables, model, chatScene, subChatScene, promptType,
                                 userName, sysCode, id))
  }

  // ---------------------------------------------------------------------------
  // Input variables: a list in a template, one comma-joined string in storage.

  /** `to_prompt_template`'s reading: nothing for a missing or empty string,
      otherwise the stripped string split on `,`. */
  function DecodeInputVariables(s: Option<string>): (r: Option<seq<string>>)
    ensures !Truthy(s) <==> r.None?
    ensures r.Some? ==> Join(r.value, ",") == Strip(s.value)
    ensures r.Some? ==> forall k :: 0 <= k < |r.value| ==> ',' !in r.value[k]
  {
    if !Truthy(s) then None
    else
      JoinSplit(Strip(s.value), ',');
      Some(Split(Strip(s.value), ','))
  }

  /** A keyword value `input_variables`: a list is joined, anything else is kept. */
  datatype VarsArg = VarsList(items: seq<string>) | VarsText(text: string)

  /** `from_prompt_template`'s writing: the template's list when it is non-empty,
      else the keyword value; a non-empty list is joined with `,`. An empty list
      is stored as `None` (both read back as no variables). */
  function EncodeInputVariables(vars: seq<string>, kw: Option<VarsArg>): (r: Option<string>)
    ensures vars != [] ==> r == Some(Join(vars, ","))
    ensures vars == [] && kw.Some? && kw.value.VarsText? ==> r == Some(kw.value.text)
    ensures vars == [] && kw.Some? && kw.value.VarsList? && kw.value.items != [] ==>
      r == Some(Join(kw.value.items, ","))
    ensures r.None? <==> vars == [] && (kw.None? || kw.value == VarsList([]))
  {
    var chosen: Option<VarsArg> := if vars != [] then Some(VarsList(vars)) else kw;
    if chosen.None? then None
    else if chosen.value.VarsText? then Some(chosen.value.text)
    else if chosen.value.items == [] then None
    else Some(Join(chosen.value.items, ","))
  }

  /** A list read back from its stored form is restored when no variable holds a
      comma and the joined string is non-empty without outer whitespace. */
  lemma InputVariablesRoundTrip(vars: seq<string>)
    requires vars != []
    requires forall k :: 0 <= k < |vars| ==> ',' !in vars[k]
    requires Join(vars, ",") != [] && NoOuterSpace(Join(vars, ","))
    ensures DecodeInputVariables(EncodeInputVariables(vars, None)) == Some(vars)
  {
    SplitJoin(vars, ',');
  }

  /** A stored string without outer whitespace is restored by reading it as a
      list and storing that list again. */
  lemma InputTextRoundTrip(s: string)
    requires s != [] && NoOuterSpace(s)
    ensures EncodeInputVariables(DecodeInputVariables(Some(s)).value, None) == Some(s)
  {
    JoinSplit(s, ',');
  }

  // ---------------------------------------------------------------------------
  // Conversions.

  /** `to_prompt_template`. The decoded input variables and the stored format go
      to the `PromptTemplate` constructor, whose validation refuses `None` for
      either field: a record with missing or empty input variables, or with no
      format, cannot be converted. */
  function ToPromptTemplate(s: StorageTemplate): (r: Result<PromptTemplate, PromptError>)
    ensures r.Failure? <==> !Truthy(s.inputVariables) || s.promptFormat.None?
    ensures r.Failure? ==> r.error == TemplateInvalid
    ensures r.Success? ==>
      && r.value.template == Some(s.content) && r.value.templateScene == s.chatScene
      && Some(r.value.templateFormat) == s.promptFormat
      && Join(r.value.inputVariables, ",") == Strip(s.inputVariables.value)
      && (forall k :: 0 <= k < |r.value.inputVariables| ==> ',' !in r.value.inputVariables[k])
  {
    var vars := DecodeInputVariables(s.inputVariables);
    if vars.None? || s.promptFormat.None? then Failure(TemplateInvalid)
    else Success(PromptTemplate(vars.value, Some(s.content), s.chatScene, s.promptFormat.value))
  }

  /** The keyword arguments `from_prompt_template` falls back on. */
  datatype Kwargs = Kwargs(
    inputVariables: Option<VarsArg>,
    content: Option<string>,
    promptFormat: Option<string>,
    chatScene: Option<string>)

  const NoKwargs := Kwargs(None, None, None, None)

  /** `from_prompt_template`: the record's own fields come from the arguments;
      content, format and scene come from the template, or from the keyword
      arguments when the template's value is falsy. */
  function FromPromptTemplate(t: PromptTemplate, promptName: Option<string>, promptLanguage: Option<string>,
                              promptType: Option<string>, sysCode: Option<string>, userName: Option<string>,
                              subChatScene: Option<string>, model: Option<string>,
                              kw: Kwargs): (r: Result<StorageTemplate, PromptError>)
    ensures r.Success? ==>
      && Consistent(r.value)
      && Some(r.value.content) == Or(t.template, kw.content)
      && r.value.promptFormat == Or(Some(t.templateFormat), kw.promptFormat)
      && r.value.chatScene == Or(t.templateScene, kw.chatScene)
      && r.value.inputVariables == EncodeInputVariables(t.inputVariables, kw.inputVariables)
      && promptName.Some? && r.value.promptName == promptName.value && r.value.promptLanguage == promptLanguage
      && r.value.sysCode == sysCode && r.value.model == model && r.value.userName == userName
      && r.value.subChatScene == subChatScene && r.value.promptType == promptType
    ensures r.Failure? <==>
      promptName.None? || !SepFree(Present(promptName.value, promptLanguage, sysCode, model))
      || Or(t.template, kw.content).None?
  {
    NewStorageTemplate(promptName, Or(t.template, kw.content), promptLanguage,
                       Or(Some(t.templateFormat), kw.promptFormat),
                       EncodeInputVariables(t.inputVariables, kw.inputVariables),
                       model, Or(t.templateScene, kw.chatScene), subChatScene, promptType,
                       userName, sysCode)
  }

  /** A stored value `from_prompt_template` writes back unchanged: a missing or
      non-empty optional string. */
  predicate Kept(s: Option<string>) {
    s.None? || s.value != ""
  }

  /** Converting a record to a template and back restores it, provided the
      conversion accepts it (input variables and format present), its content,
      format and input variables are non-empty, its input variables carry no outer
      whitespace and its scene is in the form the conversion writes. */
  lemma StorageRoundTrip(s: StorageTemplate)
    requires Consistent(s) && Valid(s.identifier)
    requires s.content != [] && Truthy(s.promptFormat) && Kept(s.chatScene)
    requires Truthy(s.inputVariables) && NoOuterSpace(s.inputVariables.value)
    ensures ToPromptTemplate(s).Success?
    ensures FromPromptTemplate(ToPromptTemplate(s).value, Some(s.promptName), s.promptLanguage, s.promptType,
                               s.sysCode, s.userName, s.subChatScene, s.model, NoKwargs) == Success(s)
  {
    InputTextRoundTrip(s.inputVariables.value);
    StripKeeps(s.inputVariables.value);
  }

  /** Converting a template to a record and back restores it, provided its
      content, format and scene are non-empty and its input variables survive
      the comma join. */
  lemma TemplateRoundTrip(t: PromptTemplate, promptName: string)
    requires Truthy(t.template) && t.templateFormat != [] && Truthy(t.templateScene)
    requires !Contains(promptName, IdentSep)
    requires var vs := t.inputVariables;
      && vs != [] && (forall k :: 0 <= k < |vs| ==> ',' !in vs[k])
      && Join(vs, ",") != [] && NoOuterSpace(Join(vs, ","))
    ensures var r := FromPromptTemplate(t, Some(promptName), None, None, None, None, None, None, NoKwargs);
      r.Success? && ToPromptTemplate(r.value) == Success(t)
  {
    assert SepFree(Present(promptName, None, None, None));
    InputVariablesRoundTrip(t.inputVariables);
  }

  /** A template without input variables, such as one built by `from_template`,
      is stored with no input variables, and that record cannot be converted
      back: the list is decoded as `None`, which the template refuses. */
  lemma EmptyVariablesNotReloaded(t: PromptTemplate, promptName: string)
    requires t.inputVariables == [] && Truthy(t.template)
    requires !Contains(promptName, IdentSep)
    ensures var r := FromPromptTemplate(t, Some(promptName), None, None, None, None, None, None, NoKwargs);
      && r.Success? && r.value.inputVariables.None?
      && ToPromptTemplate(r.value) == Failure(TemplateInvalid)
  {
    assert SepFree(Present(promptName, None, None, None));
  }

  /** An empty content is not carried over: the template's `""` is falsy, so the
      conversion back falls through to the missing keyword content and fails. */
  lemma EmptyContentLost(s: StorageTemplate)
    requires Consistent(s) && Valid(s.identifier) && s.content == []
    ensures ToPromptTemplate(s).Success? ==>
      FromPromptTemplate(ToPromptTemplate(s).value, Some(s.promptName), s.promptLanguage, s.promptType,
                         s.sysCode, s.userName, s.subChatScene, s.model, NoKwargs) == Failure(ContentNone)
  {
  }

  // ---------------------------------------------------------------------------
  // Merging.

  /** A storage item: a prompt record or some other kind. */
  datatype Item = PromptItem(t: StorageTemplate) | OtherItem

  /** `from_object`: copies content, format, input variables, model, scenes,
      prompt type and user name; keeps name, language, system code and the
      identifier. */
  function FromObject(s: StorageTemplate, o: StorageTemplate): (r: StorageTemplate)
    ensures r.promptName == s.promptName && r.promptLanguage == s.promptLanguage
    ensures r.sysCode == s.sysCode && r.identifier == s.identifier
    ensures r.content == o.content && r.promptFormat == o.promptFormat && r.inputVariables == o.inputVariables
    ensures r.model == o.model && r.chatScene == o.chatScene && r.subChatScene == o.subChatScene
    ensures r.promptType == o.promptType && r.userName == o.userName
  {
    s.(content := o.content, promptFormat := o.promptFormat, inputVariables := o.inputVariables,
       model := o.model, chatScene := o.chatScene, subChatScene := o.subChatScene,
       promptType := o.promptType, userName := o.userName)
  }

  /** `merge`: refuses an item of another kind, otherwise `from_object`. */
  function Merge(s: StorageTemplate, other: Item): (r: Result<StorageTemplate, PromptError>)
    ensures other.OtherItem? <==> r == Failure(NotSameType)
    ensures other.PromptItem? ==> r == Success(FromObject(s, other.t))
  {
    match other
    case OtherItem => Failure(NotSameType)
    case PromptItem(o) => Success(FromObject(s, o))
  }

  /** Merging the same record twice is the same as merging it once. */
  lemma MergeIdempotent(s: StorageTemplate, o: StorageTemplate)
    ensures Merge(Merge(s, PromptItem(o)).value, PromptItem(o)) == Merge(s, PromptItem(o))
  {
  }

  /** Merging a record with the same identifier (the case of a storage update)
      keeps the record consistent with its identifier. */
  lemma MergeSameIdentifier(s: StorageTemplate, o: StorageTemplate)
    requires Consistent(s) && Consistent(o) && o.identifier == s.identifier
    ensures Consistent(Merge(s, PromptItem(o)).value)
  {
  }

  /** Merging a record with another model leaves the identifier behind: it still
      names the old model. */
  lemma MergeOtherModel(s: StorageTemplate, o: StorageTemplate)
    requires Consistent(s) && o.model != s.model
    ensures !Consistent(Merge(s, PromptItem(o)).value)
  {
  }
}
