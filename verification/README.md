# code-gen-ts, modelled in Dafny

code-gen-ts is a JavaScript library that writes TypeScript source text from a
nested description of classes, interfaces, enums, properties, methods and
decorators. Each entity renders itself in one of two modes: pretty (newlines,
single spaces, an indent of `tabSize` spaces) or compact (all three whitespace
tokens empty). A list joiner drops blank fragments and joins the rest with the
mode's separator. The `CodeGen` orchestrator renders every enum, then every
interface, then every class. It collects their imports into a preamble grouped
by path. Once it has seen a "base model" class, it makes every later class
cloneable and exportable.

This project models that core as pure functions over immutable datatypes:

- `wrappers.dfy`: `Option`.
- `text.dfy`: whitespace as JavaScript's `trim` sees it, filtering, joining, deleting whitespace (`Strip`), and substring occurrence.
- `base.dfy`: the rendering mode (`Format`), the whitespace tokens, the list joiner, and import grouping. It also defines the template type: text with token slots, filled per mode.
- `property.dfy`, `method.dfy`, `decorator.dfy`, `enum.dfy`, `interface.dfy`: one module per entity.
- `class.dfy`: `Class.toString`. The clone and export lists are computed by a pure pass before rendering.
- `codegen.dfy`: `generate`, with the base-model propagation written as a fold.

One property runs through every module: an entity's pretty and compact
renderings are equal once all whitespace is deleted (the `…ModuloWhitespace`
lemmas, up to `Generator.GenerateModuloWhitespace`).

## Where the code and its documentation differ

The model follows the code in each case.

- An enum item has no blank-name check. A blank-named item with a value still renders its (blank) name followed by ` = value` in pretty mode or `=value` in compact mode; with a blank value too it renders as its blank name alone. Either way its siblings' commas stay.
- The super-call arguments go through the list joiner, not a comma join. Pretty mode separates them by newlines; compact mode separates them by nothing.
- The constructor condition tests the length of the joined argument text. One blank-named argument gives no constructor. Two blank-named arguments give `constructor(,)` in compact mode and `constructor(, )` in pretty mode.
- The clone and export lists are filled while filtering the instance properties. The filter visits every property, so static properties are collected too.
- The class and interface headers start with `export`.
- The compact decorator closes with `}) `, with a trailing space.
- The interface form of a method neither filters blank-named arguments nor shows default values.
- The property builders `setGetter`, `setSetter` and `setTrack` overwrite getter/setter mode, where the constructor only ever switches it on. The last builder called decides the mode (`Properties.LastBuilderWins`).

## Model

| member | source | states |
|---|---|---|
| Base.TokensReset | index.js:66-77 | Compact mode empties all three tokens. Pretty mode gives one newline, one space and an indent of `tabSize` spaces. All tokens and the separator are whitespace. |
| Base.FormatStringArray | index.js:39-49 | The joined text is empty exactly when every fragment is blank, and is never blank without being empty. With whitespace deleted, it is the fragments' text in order. |
| Base.FormatStringArrayIgnoresBlank | index.js:39-49 | Inserting a blank fragment anywhere leaves the joined text unchanged, so empty renders vanish from their container. |
| Base.FormatStringArrayOfNonBlank | index.js:39-49 | When no fragment is blank, the result is exactly the fragments joined by the separator. |
| Base.FormatStringArrayFrame | index.js:39-49 | A list between two non-blank fragments renders as first, then the joined middle with a separator only when the middle is non-empty, then separator and last. |
| Base.FormatStringArrayKeeps | index.js:39-49 | Every non-blank fragment appears verbatim in the joined text. |
| Base.FormatStringArrayFlatten | index.js:39-49 | Joining two joined lists equals joining the two lists concatenated. |
| Base.GroupImports | index.js:50-61 | One group per distinct path, in first-seen order. Each group lists every symbol imported from its path, in import order, duplicates kept. |
| Base.ImportStringSpec | index.js:50-65 | The preamble is one `import { … } from '…';` statement per distinct path, in first-seen order, joined by the separator. No statement is dropped. |
| Base.ImportStringModuloWhitespace | index.js:50-65 | The preamble differs between modes only in whitespace. |
| Properties.NewProperty | index.js:773-811 | Getter/setter mode is on exactly when the data turned it on, or asks for tracking, or gives a non-blank getter or setter body. Every other field is kept as given. |
| Properties.GetterSetterMode | index.js:807-810 | For data that leaves the flag off, getter/setter mode is on exactly when tracking is on or a non-blank getter or setter body is given. |
| Properties.SetGetter | index.js:828-832 | `setGetter` stores the body. Getter/setter mode is on exactly when the body is non-blank. No other field changes. |
| Properties.SetSetter | index.js:848-852 | `setSetter` stores the body. Getter/setter mode is on exactly when the body is non-blank. No other field changes. |
| Properties.SetTrack | index.js:860-867 | `setTrack` defaults to `true`. Getter/setter mode equals the tracking flag. No other field changes. |
| Properties.LastBuilderWins | index.js:828-867 | A blank getter set after a non-blank setter body switches getter/setter mode off. So does turning tracking off. `setTrack()` switches it on. |
| Properties.ArgText | index.js:888-902 | The argument form is empty exactly when the name is blank. Otherwise it starts with `name`, the optional mark and `:`. Whitespace aside, it is `name[?]:type`, followed by `=value` only when the value is neither missing nor blank. |
| Properties.MemberText | index.js:904-914 | The interface-member form is empty exactly when the name is blank. Otherwise it ends in `;` and, whitespace aside, is `name[?]:type;`; the default value plays no part. |
| Properties.PropertyText | index.js:915-977 | The property renders empty exactly when its name is blank, or it is not declared and no accessor is written. Its text is never blank without being empty. |
| Properties.PropertyParts | index.js:915-977 | A named property drops none of its lines: its text is the field declaration when declared, the getter when readable in getter/setter mode and the setter when writable in it, in that order, joined by the separator. |
| Properties.MemberPartsNotBlank | index.js:926-972 | Every line a named property contributes (field, getter, setter) is non-blank. |
| Properties.FieldLineContent | index.js:926-936 | Whitespace aside, the field declaration is its head, the type, `=value` whenever a value is present (even a blank one), and `;`. |
| Properties.BlankDefaultForms | index.js:898-936 | For a blank but present default value, the argument form leaves it out entirely while the field declaration keeps `=` with nothing after it. |
| Properties.BackingFieldDeclared | index.js:926-947 | With accessors, the field is `private [static ]_name:`. Without them, it is `modifier [static ]name:`. The default getter returns `this._name`. |
| Properties.DefaultSetterAssigns | index.js:949-967 | The default setter's first statement, directly after its opening line, is (whitespace aside) `this._name=value;`. In a tracked setter the dirty and timestamp updates come directly after that assignment. |
| Properties.TrackedSetter | index.js:949-972 | A tracked default setter is the untracked one with the dirty-marker and timestamp updates inserted, in that order, just before its closing brace. |
| Properties.MarkerUpdates | index.js:953-966 | The dirty update appears exactly when state tracking is on and the marker name is non-empty; likewise the timestamp update for date tracking. Unset names default to `_isDirty` and `_lastUpdated`. Whitespace aside, the dirty update is `this.<marker>=true;` and the timestamp update is `this.<marker>=(new Date()).getTime();`. |
| Properties.ArgTextModuloWhitespace | index.js:888-902 | The argument form differs between modes only in whitespace. |
| Properties.MemberTextModuloWhitespace | index.js:904-914 | The interface-member form differs between modes only in whitespace. |
| Properties.PropertyTextModuloWhitespace | index.js:915-977 | The property differs between modes only in whitespace. |
| Methods.SetBody | index.js:695-701 | A missing body falls back to `return;`. No other field changes. |
| Methods.MethodText | index.js:736-768 | A method renders empty exactly when its name is blank. |
| Methods.SignatureLineNotBlank | index.js:756-763 | The signature line is never blank. It ends in `;` for an abstract method and `{` otherwise. |
| Methods.SignatureLineOpens | index.js:744-763 | After the indent, the signature starts with `abstract ` when abstract, then the modifier, ` static` when static, a space, the name and `(`. |
| Methods.SignatureLineContent | index.js:744-763 | Whitespace aside, the signature line is that opening, every argument's text joined by commas with nothing filtered (a blank-named argument leaves an empty entry between commas), `):`, the return type, and `;` when abstract or `{` otherwise. |
| Methods.AbstractIgnoresBody | index.js:744-766 | An abstract method is its signature line alone. It ends in `;`, starts with `abstract ` and the modifier after the indent, and does not depend on the body. |
| Methods.ConcreteMethod | index.js:736-768 | A concrete method with a non-blank body is the signature, the body indented twice, and the indented `}`, joined by the separator. |
| Methods.MethodSignatureText | index.js:720-735 | The interface form is empty exactly when the name is blank. Otherwise it ends in `;` and, whitespace aside, is `name(`, every argument as `name[?]:type` joined by commas (unfiltered, no default values), `):`, the return type and `;`. |
| Methods.SignatureIgnoresImplementation | index.js:720-735 | The interface form depends on neither the body, the abstract flag, the modifier nor the static flag. |
| Methods.MethodTextModuloWhitespace | index.js:736-768 | The method differs between modes only in whitespace. |
| Methods.MethodSignatureTextModuloWhitespace | index.js:720-735 | The interface form differs between modes only in whitespace. |
| Decorators.AddOption | index.js:490-496 | Options keep insertion order; the new option comes last. |
| Decorators.DecoratorText | index.js:497-523 | A decorator renders empty exactly when its type is blank. |
| Decorators.DecoratorShape | index.js:497-523 | A decorator is `@Type({`, then the option lines joined by newline tokens (when there are options), then the trailer, all joined by the separator. |
| Decorators.OptionCommas | index.js:508-514 | Every option line but the last ends in `,` and the space token; the last has no comma. |
| Decorators.DecoratorTextModuloWhitespace | index.js:497-523 | The decorator differs between modes only in whitespace. |
| Enums.AlignValues | index.js:539-548 | There is one value per name. It is the given value at that position, or `""` past the end of the values or when there are none. |
| Enums.NewEnum | index.js:528-551 | The enum keeps its name and has one item per name, in order. Each item's value is the aligned value: the given one at that position, or `""` past the end of the values or when none are given. |
| Enums.ExtraValuesIgnored | index.js:542-545 | Values beyond the last name make no difference. |
| Enums.MissingValuesEmpty | index.js:542-548 | No value array and an empty one build the same enum, with every value `""`. |
| Enums.AddItem | index.js:553-560 | `addItem` appends one item and keeps the others. A missing value becomes `""`. |
| Enums.AddItemExtends | index.js:553-560 | Appending with `addItem` equals building with the longer name and value lists. |
| Enums.AddAllNoValues | index.js:553-560 | Adding names one at a time without values equals building with those names and no values. |
| Enums.EnumItemText | index.js:612-618 | An item renders as exactly its name when its value is blank. Its text always starts with the name. |
| Enums.EnumText | index.js:561-590 | An enum renders empty exactly when its name is blank. |
| Enums.EnumShape | index.js:561-590 | An enum is `export enum Name {`, the item list unless blank, and `}`, joined by the separator. |
| Enums.EnumTextModuloWhitespace | index.js:561-590 | The enum differs between modes only in whitespace. |
| Interfaces.InterfaceText | index.js:627-663 | An interface renders empty exactly when its name is blank. |
| Interfaces.InterfaceFlat | index.js:627-663 | An interface is one joined list: header, every non-blank property member, every non-blank method signature, `}`. The non-empty checks change nothing. |
| Interfaces.InterfaceTextModuloWhitespace | index.js:627-663 | The interface differs between modes only in whitespace. |
| Classes.AccumulateFilters | index.js:303-315 | The clone and export lists the property pass builds are the properties passing the clone and export tests, in declaration order. |
| Classes.Membership | index.js:303-315 | A property is in the clone list exactly when it belongs to the class and both can be cloned; likewise for exports. A class that cannot be cloned or exported has an empty list. |
| Classes.BaseModelSections | index.js:320-330 | A base model's `_clones` and `_exports` registries list exactly the filtered properties. A class that is not a base model has no registries and no generated methods. |
| Classes.ConstructorEmitted | index.js:332-336 | A constructor is written exactly when one holds: a non-blank base class, non-blank constructor code, more than one argument, or one argument with a non-blank name. This does not depend on the mode. |
| Classes.SuperCallContent | index.js:338-349 | With a base class, the statements after the constructor's opening line start with the doubly indented `super(`. Whitespace aside, that call is `super(`, the super arguments' names with only whitespace between them, and `);`. When a class-name field is configured, the next statement is, whitespace aside, `this.<field>='<class name>';`; otherwise nothing follows the call. |
| Classes.ConstructorCallsSuper | index.js:336-349 | The constructor of a class with a base class contains the `super(` call and, when a class-name field is configured, the statement storing the class name. |
| Classes.ConstructorSpreads | index.js:352-366 | When the clone (export) list is non-empty, the constructor extends `_clones` (`_exports`) with `...this._clones,` (`...this._exports,`) rather than overwriting it. |
| Classes.BaseModelNames | index.js:375-459 | The generated methods, in order: `registerProperty`, `registerProperties`, `clone` if cloneable, `toObject` if exportable, `parseObject`, and `commit` and `revert` if undoable. |
| Classes.BaseModelMethodSet | index.js:375-459 | `registerProperty`, `registerProperties` and `parseObject` are always generated. `clone` is generated exactly when cloneable, `toObject` exactly when exportable, and `commit`/`revert` exactly when undoable. |
| Classes.ParseObjectSnapshot | index.js:435-446 | `parseObject` snapshots the parsed values into the undo store exactly when the class supports undo. |
| Classes.ClassText | index.js:260-471 | A class renders empty exactly when its name is blank. |
| Classes.ClosingIn | index.js:469-471 | A named class's rendered text is non-empty and ends with `}`. |
| Classes.ClassContainsProperties | index.js:291-318 | Every property of a named class that renders to something appears verbatim in the class text, static or not. |
| Classes.ClassContainsMethods | index.js:297-466 | Every named method of a named class appears verbatim in the class text, static or not. |
| Classes.ClassContainsRegistries | index.js:320-330 | A named base model's text contains both registry declarations, `_clones` and `_exports`, verbatim. |
| Classes.ClassContainsConstructor | index.js:336-372 | Whenever a constructor is written, a named class's text contains it verbatim, and with a base class it therefore contains the `super(` call. |
| Classes.ClassContainsBaseModelMethods | index.js:375-459 | A named base model's text contains every generated method verbatim. |
| Classes.ClassTextModuloWhitespace | index.js:260-471 | The class differs between modes only in whitespace. |
| Generator.NewCodeGen | index.js:982-1019 | Defaults are pretty output and four-space indents. Options override each one independently. |
| Generator.PropagateSpec | index.js:1062-1073 | A class is made cloneable and exportable exactly when it is not a base model and an earlier class is. Every other class is rendered as configured. |
| Generator.PropagateRenderable | index.js:1070-1073 | Propagation keeps every class renderable. |
| Generator.PromotedClassClones | index.js:1063-1074 | After a base model, a non-base-model class collects its cloneable properties even if it was configured not to. Its constructor, when written, extends `_clones`. |
| Generator.ClassNamesMembership | index.js:1064-1066 | A name is in the class list exactly when some class that is not a base class has it. |
| Generator.ClassNamesPropagate | index.js:1063-1076 | Propagation changes no name or base-class flag, so the class list is the same before and after it. |
| Generator.Generate | index.js:1041-1089 | The enum and interface lists hold every name in order, blank ones included. The class list holds the names of the non-base classes, one per class, in declaration order (`ClassNames`), so a name is listed exactly when some non-base class has it. |
| Generator.GenerateOutput | index.js:1078-1086 | The output is the import preamble followed by the enum, interface and class texts, blank ones dropped, joined. Interface imports precede class imports. The extra filter of blank parts changes nothing. |
| Generator.GenerateModuloWhitespace | index.js:1041-1089 | Changing the mode or indent width changes the output only in whitespace. |

## Left out

- The stray call to the global `toString` at index.js:40 is not modelled. It has no effect on the output.
- The process-wide `TAB` is not modelled as global state. The generator sets `TAB` once from `tabSize`, so the indent width is carried in `Format`.
- Each entity's mutable whitespace tokens are not modelled. Rendering is a function of `Format`, so the reset at the top of every `toString` is implicit.
- The getter, setter, constructor-code and generated-method bodies are opaque strings. The generated methods' bodies are copied verbatim as constants; nothing is proved about the JavaScript inside them.
- `new Date()` is not evaluated. The timestamp update is the literal text `(new Date()).getTime();` the generator writes.
- Repeated rendering is not modelled. Rendering a class twice appends to its clone and export lists again, but the model computes the lists once per render. `Generate` likewise describes one call.
- A tracked default setter with state or date tracking on reads the options object. When the property was built without options, the source throws. `Properties.Renderable` excludes that case, and the class and generator functions require it of their properties.
- `_parseObject`'s copying of arbitrary keys from descriptor objects is not modelled. Neither are JavaScript's dynamic typing and its coercion of non-string values through `toString`. Descriptors are typed datatypes, and `NewProperty`, `NewEnum`, `NewCodeGen` and `DefaultClass` model their constructors' defaults.
- Only the Property builders whose effect is more than a field assignment are modelled: `setGetter`, `setSetter`, `setTrack`, `Method.setBody`, `Enum.addItem`, `Decorator.addOption`. The other builders (`setModifier`, `addArg`, `addImport`, …) set or append one field, which a datatype update expresses directly.
- `module.exports` and the `CodeGen` factory are not modelled.
- A `tabSize` that is fractional or below -1 is not modelled. The source builds the indent as `new Array(tabSize + 1).join(' ')`, which throws a RangeError for such values and gives an empty indent for -1. `Format.tabSize` and `Options.tabSize` are natural numbers, so the model has no such error path.
- The `inferType` option is read by the Property constructor but used nowhere in rendering; it is not modelled.
