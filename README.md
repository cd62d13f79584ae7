# AutoNotify generator model

A Dafny model of the AutoNotify source generator (`src/AutoNotify/AutoNotify.cs`), with
proofs about it. The generator is a C# compiler plug-in. Fields marked with
`[AutoNotify]` get a generated property whose setter raises `PropertyChanged`, and the
owning type gets a `partial` declaration that implements `INotifyPropertyChanged`.

The model follows the generator's own steps:

- **Discovery** (`SyntaxReceiver.OnVisitSyntaxNode`). The compiler shows the receiver every
  syntax node. For a field declaration with at least one attribute list, the receiver keeps
  each declared field that carries the marker attribute. The receiver is a class whose
  `fields` list the method appends to.
- **Grouping** (`Execute`, the `GroupBy` on `ContainingType`). The collected fields form one
  group per owning type, in order of first occurrence.
- **Per-type emission** (`ProcessClass`, `GetKind`). The method walks the containing symbols
  up to the namespace. It gives up when one of them is not a type. Otherwise it writes:
  - the namespace,
  - one `partial` wrapper per containing type,
  - the `partial` class header naming the interface,
  - the event, unless the type already declares the interface,
  - one property per field,
  - the closing braces.
- **Per-field property** (`ProcessField` and its local `chooseName`). The property name comes
  from the override, or from the field name without leading underscores and with its first
  character upper-cased. The field is skipped when the name is empty or equals the field's
  own name. The two accessor visibilities and the optional equality check come from the
  attribute's named arguments.
- **Naming** (`Execute`). The source is named after the type's chain of metadata names, from
  the type outwards, joined with `.` and suffixed `_autoNotify.cs`.

The model differs from the C# in these ways:

- Compiler symbols are datatypes, and symbol identity is value equality.
- Generated text is a sequence of structural fragments, not characters: headers, the event,
  properties and closing braces.
- The `StringBuilder` that `ProcessField` appends to is passed in and handed back.
- Loops that build state are methods. Each is proved equal to a specification function, and
  the properties are proved about those functions:
  - a declarative `Layout` of the text,
  - brace balance,
  - header order,
  - the grouping partition and permutation,
  - membership of the discovered and emitted items.

The model stores the field list as a sequence. `SyntaxReceiver.Valid` is the invariant that
every field in it carries the marker. `ProcessField` relies on that, because the C# calls
`Single()` on it.

## Model

| member | source | states |
|---|---|---|
| Symbols.MarkerArguments | src/AutoNotify/AutoNotify.cs:195-196 | The named arguments read for a field come from a marker attribute that the field actually carries. |
| Naming.TrimLeadingUnderscores | src/AutoNotify/AutoNotify.cs:257 | The result is a suffix of the name that does not start with '_', and everything removed before it is '_'. |
| Naming.ChooseName | src/AutoNotify/AutoNotify.cs:250-265 | An override is returned unchanged. Otherwise the result is empty exactly when the name is all underscores. If non-empty, it is the first non-'_' character upper-cased, followed by the rest of the name. |
| Naming.ChooseNameIdempotent | src/AutoNotify/AutoNotify.cs:257-264 | Deriving a name from an already derived name gives it back unchanged. |
| Naming.LeadingUnderscoresIrrelevant | src/AutoNotify/AutoNotify.cs:257 | Any number of leading underscores added to a field name leaves the derived name unchanged. |
| Naming.TrimDetermines | src/AutoNotify/AutoNotify.cs:257-264 | Two field names with the same trimmed form derive the same name. |
| Naming.SkippedWithoutOverride | src/AutoNotify/AutoNotify.cs:198-203 | Without an override, a field is skipped exactly when its name is all underscores, or starts with a character that is neither '_' nor a lower-case letter. |
| PropertyDerivation.VisibilityName | src/AutoNotify/AutoNotify.cs:213-219 | The lower-cased enum name of levels 0..3 is private, internal, protected, public. Any other level gives its decimal numeral, with a leading '-' when negative. The result is never empty. |
| PropertyDerivation.AccessorModifier | src/AutoNotify/AutoNotify.cs:213-219 | An accessor carries a modifier exactly when its level is strictly below the property's, and the modifier is that level's name. |
| PropertyDerivation.EqualityCheckOf | src/AutoNotify/AutoNotify.cs:222-229 | Value 1 selects Object.Equals, value 2 selects Object.ReferenceEquals, and every other value selects no check. |
| PropertyDerivation.GuardFor | src/AutoNotify/AutoNotify.cs:224-229 | The guard is absent exactly for no check and compares `this.<field>`. Object.Equals is used exactly when that check was chosen. |
| PropertyDerivation.PropertyName | src/AutoNotify/AutoNotify.cs:198-203 | A field is skipped exactly when the chosen name is empty or equals the field name. Any name kept is non-empty and differs from the field's. |
| PropertyDerivation.Render | src/AutoNotify/AutoNotify.cs:230-248 | The property has the derived name, the field's type and the declared visibility's name. Each accessor has a modifier exactly when its level is below the declared one. The getter returns `this.<field>` and the setter assigns it. The setter notifies under the property's own name and is unguarded exactly when no check was chosen. |
| PropertyDerivation.DeriveSpec | src/AutoNotify/AutoNotify.cs:198-222 | A property is derived exactly when the field is not skipped. |
| PropertyDerivation.FieldSource | src/AutoNotify/AutoNotify.cs:188-248 | A field contributes at most one fragment, and that fragment is a property. |
| PropertyDerivation.ProcessField | src/AutoNotify/AutoNotify.cs:188-248 | The method appends exactly the field's property, or nothing, to the builder it was given. |
| PropertyDerivation.FieldSourceShape | src/AutoNotify/AutoNotify.cs:230-248 | There is no property exactly when the chosen name is empty or the field's own. Otherwise the property has the chosen name and the field's type. Its getter returns `this.<field>`. Its setter assigns `this.<field>` and notifies under the property's name. |
| PropertyDerivation.VisibilityDerivation | src/AutoNotify/AutoNotify.cs:205-219 | The property's visibility is the larger of the two levels, each defaulting to public. Each accessor has a modifier exactly when its level is the smaller one, so at most one accessor has one. |
| PropertyDerivation.EqualityGuardSelection | src/AutoNotify/AutoNotify.cs:221-229 | Argument 1 guards the setter with Object.Equals and argument 2 with Object.ReferenceEquals, both on `this.<field>` against `value`. An absent argument or any other value leaves the guard text empty. |
| PropertyDerivation.SetterBehaviour | src/AutoNotify/AutoNotify.cs:238-245 | When the guard's comparison reports the values equal, the setter changes nothing and raises nothing. Otherwise it stores `value` and raises PropertyChanged once, with the property's name. |
| GeneratedText.GuardText | src/AutoNotify/AutoNotify.cs:224-229 | The guard's text is empty exactly when there is no check. |
| GeneratedText.RunSetter | src/AutoNotify/AutoNotify.cs:238-245 | A setter stores either the new or the old value and raises at most its own name. It raises nothing exactly when its guard's comparison holds. |
| ClassEmission.GetKind | src/AutoNotify/AutoNotify.cs:174-186 | Class gives "class", struct "struct" and interface "interface". A record gets the same keyword after "record ", or "record " alone for any other kind. The result is null exactly for a non-record of any other kind. |
| ClassEmission.KindText | src/AutoNotify/AutoNotify.cs:144 | The keyword as interpolated into a header: GetKind's keyword, or the empty string exactly when GetKind gives null. |
| ClassEmission.AppendClassHeader | src/AutoNotify/AutoNotify.cs:148-158 | Appends the class header naming the notification interface. It then appends the event exactly when the type does not already declare the interface. The text before is kept. |
| ClassEmission.ContainerTypes | src/AutoNotify/AutoNotify.cs:121-136 | When every container is a type, the queued types are the containers' types in walk order. |
| ClassEmission.ClassSource | src/AutoNotify/AutoNotify.cs:106-172 | No text is produced exactly when a symbol between the type and its namespace is not a type. |
| ClassEmission.CorrectedClassSource | src/AutoNotify/AutoNotify.cs:121-147 | Same as ClassSource, with the wrappers opened outermost container first. |
| ClassEmission.QueueContainers | src/AutoNotify/AutoNotify.cs:121-136 | The walk fails exactly when some container is not a type. Otherwise it queues the containers' types, immediate container first. |
| ClassEmission.OpenQueued | src/AutoNotify/AutoNotify.cs:140-147 | Dequeuing appends one wrapper header per queued type, in queue order. |
| ClassEmission.ProcessFields | src/AutoNotify/AutoNotify.cs:160-164 | Processing the fields in order appends what ProcessField appends for each. |
| ClassEmission.CloseWrappers | src/AutoNotify/AutoNotify.cs:166-169 | One closing brace is appended per wrapper. |
| ClassEmission.EmitClass | src/AutoNotify/AutoNotify.cs:110-171 | The emitted text is the class text for the given queue. |
| ClassEmission.ProcessClass | src/AutoNotify/AutoNotify.cs:106-172 | The method returns exactly ClassSource, including the null result. |
| ClassEmission.ProcessClassCorrected | src/AutoNotify/AutoNotify.cs:121-147 | The method returns exactly CorrectedClassSource. |
| ClassLayout.Properties | src/AutoNotify/AutoNotify.cs:160-164 | The fields' properties are at most one per field, and every one is a property member. |
| ClassLayout.OpenWrappersAppends | src/AutoNotify/AutoNotify.cs:140-147 | Opening the wrappers appends exactly the queue's headers to the text. |
| ClassLayout.AppendClosesAppends | src/AutoNotify/AutoNotify.cs:166-169 | Closing appends exactly n braces. |
| ClassLayout.AppendPropertiesAppends | src/AutoNotify/AutoNotify.cs:160-164 | The field loop appends exactly the fields' properties, in field order. |
| ClassLayout.ClassTextLayout | src/AutoNotify/AutoNotify.cs:115-171 | The text built step by step is the declarative layout: namespace, wrappers, class header, optional event, properties, and one brace per wrapper plus two. |
| ClassLayout.LayoutBalanced | src/AutoNotify/AutoNotify.cs:115-170 | The layout opens and closes the same number of braces, one per wrapper plus two. |
| ClassLayout.LayoutHeaders | src/AutoNotify/AutoNotify.cs:115-158 | The layout starts with the namespace, then the queue's wrappers in order, then the class header naming the interface. The event follows exactly when the type does not already declare the interface. |
| ClassLayout.OpeningHeaders | src/AutoNotify/AutoNotify.cs:115-151 | The opening is the namespace, the wrappers in queue order, and the class header. |
| ClassLayout.ClassTextShape | src/AutoNotify/AutoNotify.cs:115-171 | The class text for any queue has the header order, event rule and brace balance above. |
| ClassLayout.ClassSourceHeaders | src/AutoNotify/AutoNotify.cs:121-158 | As written, wrapper i (counted from the namespace) belongs to container i, so the immediate container comes first. The text is balanced. |
| ClassLayout.CorrectedClassSourceHeaders | src/AutoNotify/AutoNotify.cs:121-158 | In the corrected text, wrapper i (counted from the namespace) belongs to the i-th container counted from the outermost, so nesting follows declaration. The text is balanced. |
| ClassLayout.OrdersAgreeWhenShallow | src/AutoNotify/AutoNotify.cs:121-147 | With at most one containing type, the written and corrected outputs are identical. |
| ClassLayout.NestedWrappersInverted | src/AutoNotify/AutoNotify.cs:121-147 | For Inner in Middle in Outer, the code as written opens Middle inside the namespace and Outer inside Middle. The corrected order opens Outer and then Middle. |
| Discovery.Discovered | src/AutoNotify/AutoNotify.cs:282-293 | Every field discovered in a node carries the marker. |
| Discovery.AnnotatedSymbols | src/AutoNotify/AutoNotify.cs:285-293 | The declarators contribute at most one field each, all of them marked. |
| Discovery.AnnotatedMembership | src/AutoNotify/AutoNotify.cs:285-293 | A field is kept exactly when a declarator declares it and it carries the marker. |
| Discovery.DiscoveredMembership | src/AutoNotify/AutoNotify.cs:281-294 | A field is discovered in a node exactly when the node is a field declaration with an attribute list, declares the field, and the field is marked. |
| Discovery.SyntaxReceiver.constructor | src/AutoNotify/AutoNotify.cs:274 | A new receiver holds no fields. |
| Discovery.SyntaxReceiver.OnVisitSyntaxNode | src/AutoNotify/AutoNotify.cs:279-295 | The list becomes the old list followed by the node's discovered fields, in declaration order. Every collected field stays marked. |
| Discovery.Walk | src/AutoNotify/AutoNotify.cs:272-295 | The fields collected over a walk are all marked. |
| Discovery.WalkStep | src/AutoNotify/AutoNotify.cs:279-295 | Visiting one more node extends the walk's fields just as OnVisitSyntaxNode extends the receiver's list. So a new receiver that has visited the nodes in order holds the walk's fields. |
| Discovery.WalkCollects | src/AutoNotify/AutoNotify.cs:274-295 | After a walk, a field is collected exactly when some visited field declaration with an attribute list declares it and it is marked. |
| Grouping.Owners | src/AutoNotify/AutoNotify.cs:85 | The group keys are distinct, and they are exactly the containing types of the fields. |
| Grouping.MembersOf | src/AutoNotify/AutoNotify.cs:85 | A group holds exactly the fields whose containing type is its key. A single field is kept exactly when its containing type is the key. |
| Grouping.MembersKeepOrder | src/AutoNotify/AutoNotify.cs:85 | A group keeps its fields in their original order: the members of a concatenation are the members of the first part followed by those of the second. |
| Grouping.GroupBy | src/AutoNotify/AutoNotify.cs:85 | There are at most as many groups as fields, and no two groups have the same key. |
| Grouping.GroupByPartitions | src/AutoNotify/AutoNotify.cs:85 | Keys are distinct and groups are non-empty. A field lies in a group exactly when its containing type is the key, and every field lies in some group. |
| Grouping.GroupsStayMarked | src/AutoNotify/AutoNotify.cs:85 | Grouping marked fields gives groups of marked fields. |
| Grouping.GroupByPermutes | src/AutoNotify/AutoNotify.cs:85 | The groups read one after another are a permutation of the fields. |
| Generator.SymbolPath | src/AutoNotify/AutoNotify.cs:92-99 | The chain starts with the type's metadata name and has one name per containing symbol. |
| Generator.Dotted | src/AutoNotify/AutoNotify.cs:93-99 | Appending names to the builder keeps what it already holds as a prefix. |
| Generator.HintName | src/AutoNotify/AutoNotify.cs:91-99 | The loop writes each name of the chain, with a '.' before it once the builder is non-empty. |
| Generator.HintNameIsDotJoin | src/AutoNotify/AutoNotify.cs:91-99 | When the type's own metadata name is non-empty, the hint is the chain's names joined by '.'. |
| Generator.GroupSource | src/AutoNotify/AutoNotify.cs:87-101 | A group yields a source exactly when every symbol between its type and the namespace is a type. The source's text is what ProcessClass produces for it, with the wrappers in the order written. |
| Generator.ProcessGroup | src/AutoNotify/AutoNotify.cs:87-101 | Handling one group gives that group's source, or nothing when ProcessClass returns null. |
| Generator.Emit | src/AutoNotify/AutoNotify.cs:85-103 | There is at most one source per group. |
| Generator.EveryGroupEmitted | src/AutoNotify/AutoNotify.cs:85-103 | When every owning type sits only inside types up to its namespace, every group yields a source. |
| Generator.ProcessGroups | src/AutoNotify/AutoNotify.cs:85-103 | The loop collects, in group order, the source that ProcessClass and the hint name give for each group, skipping the groups for which ProcessClass returns null. |
| Generator.Execute | src/AutoNotify/AutoNotify.cs:74-104 | Without a receiver nothing is emitted. Otherwise the result is one source per group of the receiver's fields, in group order. Each source's text is what ProcessClass writes, and the groups whose ProcessClass returns null are skipped. |
| Generator.GroupsMarked | src/AutoNotify/AutoNotify.cs:85 | Every group of the receiver's marked fields is marked. |
| Generator.PresentMembership | src/AutoNotify/AutoNotify.cs:88-102 | A source is added exactly when it is the non-null result for some group. |
| Generator.EmitMembership | src/AutoNotify/AutoNotify.cs:85-103 | A source is emitted exactly when it is the source of one of the groups. |
| Generator.GroupSourceWellFormed | src/AutoNotify/AutoNotify.cs:87-101 | A group's source is named after the dotted chain with the `_autoNotify.cs` suffix. Its text is balanced, one brace per containing type plus two. |
| Generator.EmittedSourcesWellFormed | src/AutoNotify/AutoNotify.cs:85-103 | Every emitted source belongs to some group, is named after that group's type, and is balanced. |

## Left out

- The attribute's own source text and its registration in `Initialize` are not modelled. It
  is a fixed string added after initialisation and has no logic.
- The compiler lookups are left out: `GetTypeByMetadataName`, `GetDeclaredSymbol`,
  `ToDisplayString`, `SymbolEqualityComparer`.
  - Their results are inputs: datatypes, with value equality as symbol identity.
  - The two type lookups are assumed to succeed. A missing attribute or interface type
    (a null symbol) is not modelled.
  - A declared symbol that is not a field (the `as` cast yielding null) is not modelled.
- The marker is identified by its display name in both places that test for it. The receiver
  compares display names. `ProcessField` compares symbols, and that is modelled as the same
  name test.
- `AddSource`, `SourceText` and UTF-8 encoding are not modelled. `Execute` returns the named
  sources it would add. The compiler's error on two sources with the same hint name is not
  modelled.
- Generated text is a sequence of fragments. The exact characters, whitespace and line
  breaks of the C# templates are not modelled. Each fragment's comment gives the shape it
  stands for.
- Naming.ChooseName: upper-cases only the ASCII letters 'a'..'z'. The C# `ToUpper` uses the
  current culture and maps every Unicode letter.
- Symbols.MarkerArguments: when a field carries the marker more than once, the model takes
  the first one. The C# `Single()` throws instead. The attribute is declared
  `AllowMultiple = false`, so the compiler rejects such a field anyway.
- The compiler visits syntax nodes one at a time. `Discovery.Walk` states what a sequence of
  visits collects, as a function, and no method drives the walk. `Discovery.WalkStep` ties one
  more visit to what `OnVisitSyntaxNode` appends.
- The `StringBuilder` is shared between `ProcessClass` and `ProcessField`. Here it is passed
  as a value and returned, so aliasing is not modelled.
- Concurrency, cancellation and diagnostics are not modelled. The source has none except
  the two TODO comments.

## Findings

| source | as written | input that shows it | evidently intended | confidence | as-written member | corrected member |
|---|---|---|---|---|---|---|
| src/AutoNotify/AutoNotify.cs:121-147 | The containing types go into a FIFO queue while walking outwards from the type. They are dequeued in the same order, so the immediate container's wrapper comes first, just inside the namespace, and the outermost one last, just around the class. | `class Inner` declared in `class Middle`, which is declared in `class Outer`: the generated text opens `partial class Middle { partial class Outer { partial class Inner ...`. | Wrappers opened outermost first (a stack, not a queue), so that the generated partial declarations nest as the declared ones do. | not executed | ClassLayout.NestedWrappersInverted | ClassLayout.CorrectedClassSourceHeaders |

`ClassEmission.ProcessClass` and `ClassLayout.ClassSourceHeaders` model the code as
written, and `Generator.Execute` calls `ProcessClass` as the source does.
`ClassEmission.ProcessClassCorrected` is the corrected method, a replacement for the call at
line 87. `ClassLayout.CorrectedClassSourceHeaders` proves its declared nesting order. `ClassLayout.OrdersAgreeWhenShallow` shows that the two orders coincide for a type
nested at most one level deep. That is why the inversion only shows for deeper nesting.
