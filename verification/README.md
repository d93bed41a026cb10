# The graphics back ends, modelled and proved

OBS's graphics library keeps "one big current state": a current render target, current shaders, current
blending. Its three back ends (OpenGL, Direct3D 11, Metal) map that state onto real GPUs with caches, deferred
work and small compilers. This project models those parts in Dafny and proves what they are for.

* **The HLSL to GLSL transpiler**. Its text: `Tokens`, `GlStream`, `GlBlanks`, `GlTranslation`, `GlFrames`, `GlSettled`,
  `GlExact`, `GlBodies`, `GlShaderParser`. `GlStream` says what the streamer writes from every token stream, also
  malformed ones, and where its cursor ends; `GlShaderParser.Writer` is the imperative program with its one shared
  cursor, proved equal to it. `GlFrames` turns the streamer's recursion into a stack of frames; `GlSettled` follows that
  stack over any expression, also where an argument that begins with a parenthesis ends a call early, and `GlExact` draws
  from it exactly when the text is right.
  Its meaning: `Expressions`, `Statements` and `Stores` are an independent grammar with the precedences of section 5.1 of
  the GLSL 3.30 specification, with printers, parsers that read back what is printed, values and runs. `GlMeaning`,
  `GlReadings` and `GlArithmetic` read the written expressions with that parser and compare values, up to real
  arithmetic on vectors and matrices; `GlStatements`, `GlScopes` and `GlStores` do so for whole bodies and what they leave
  in the store; `GlSamplers` says when the one sampler that GL keeps for a texture is the right one. `GlStorage`,
  `GlRenaming`, `GlLinking` and `Stages` cover flattened inputs and outputs, the glue main and the names that link the
  stages.
* **Direct3D 11 shader parameters and vertex inputs** (`ConstantBuffer`, `D3dShader`, `InputLayout`, `VertexBuffers`,
  `DeclaredInputs`, `VertexBinding`, `VertexInput`): register packing, the dirty-flag upload over all runs, slot
  assignment from the declarations on against the separately built buffer list, and the cache of the last vertex-buffer
  and shader pair, compared by address. `Decimals` are the numbers in names, here and in the generated GLSL.
* **Direct3D 11 device state** (`OutputViews`, `OutputDevice`, `StateCache`, `PipelineStates`, `PipelineMeaning`,
  `D3dRebuild`, `D3dObjects`): lazy output views with a swap chain standing in, memoised state objects and what their
  descriptions make the device do, and rebuilding the whole device with paired textures.
* **Intrusive lists** (`IntrusiveList`, `ListRuns`, `GlPrograms`, `Lists`): the `prev_next` list on the heap, and the
  GL program cache on it, with deletion during traversal.
* **Metal** (`MetalAnalysis`, `MetalTranspiler`, `MetalUniforms`, `MetalShader`, `MetalCommands`, `MetalDevice`): the
  one-pass effect analysis of shader functions, the aligned uniform buffer, and the deferred command buffer.
* **DMA-BUF modifiers** (`DmaBuf`): the in-place filter.

Each stateful part is a class whose methods follow the source's branches, tied by `ensures` to a specification over
values; the theorems are about that specification, over all inputs or all runs. What a run should lead to is told from
its events alone (`MetalCommands.Issued`, `ConstantBuffer.Latest`, `StateCache.LastRequested`, `OutputViews.Wished`,
`VertexBinding.SceneAfter`, `GlPrograms.LastDrawn`), and not from the state that the run keeps. Calls into Direct3D,
Metal, GL and EGL are abstract: what they bind is a value, whether they succeed is a parameter. Where the code does not
keep what its documentation says, a lemma says exactly when it does: for arguments that begin with a parenthesis
(`GlExact.SettledExact`, and by intrinsic `ProductExact`, `MadExact`, `TextureExact`, `GlBodies.SincosExact`), for
operands that HLSL and GLSL do not treat alike (`GlReadings.MeansExact`, `GlArithmetic.MulExact`, `TimesExact`,
`FmodExact`), for texture methods on types that lack them in GLSL (`GlMeaning.FitsExact`), for textures sampled with
several samplers (`GlSamplers.ShaderExact`), for sincos calls without braces (`GlScopes.BodyCompiles`), for attribute
names inside one another (`GlRenaming.RenamedIff`, `GlLinking.SameName`), for fields that share a variable
(`GlStorage.DeclaredDistinct`), for arrays of constants (`ConstantBuffer.PackingExact`), for values of wrong sizes
(`ConstantBuffer.UploadPlaces`), for a failed `Map` (`ConstantBuffer.FailedMapForgets`), for unusual vertex inputs
(`DeclaredInputs.DeclaredReads`), for stale vertex buffers (`VertexBinding.DrawExact`), for pairs that lost a plane
(`D3dObjects.Device.OnceIffPairsListed`), for a failed resize (`OutputViews.FailedResizeUnsafe`), for Metal's order of
extra arguments (`MetalAnalysis.ArgumentsMatch`) and their scope (`MetalAnalysis.ScopeExact`), for Metal's immediate
blits (`MetalCommands.RunInIssueOrder`) and for its defaults (`MetalUniforms.DefaultsNotUploaded`).

## Model

| member | source | states |
|---|---|---|
| `Tokens.StripNext` | libobs-opengl/gl-shaderparser.c:271-314 | Stepping to the next token commutes with removing blanks, and ends on the end token at the latest |
| `GlStream.Contents` | libobs-opengl/gl-shaderparser.c:492-523 | On every stream, balanced or not, the streamer terminates, its cursor stays in the array and before or on the end token, and the sincos counter never goes down |
| `GlStream.Scan` | libobs-opengl/gl-shaderparser.c:501-522 | The same for the loop from the token the cursor has just reached |
| `GlStream.Mul` | libobs-opengl/gl-shaderparser.c:295-314 | A product call consumes no more than the stream and gives its cursor back inside it, also when it is cut off |
| `GlStream.Mad` | libobs-opengl/gl-shaderparser.c:271-293 | The same for mad |
| `GlStream.Saturate` | libobs-opengl/gl-shaderparser.c:360-376 | The same for saturate |
| `GlStream.Sincos` | libobs-opengl/gl-shaderparser.c:316-358 | The same for sincos, which uses up a counter value only when it is written |
| `GlStream.Texture` | libobs-opengl/gl-shaderparser.c:410-449 | The same for a texture call |
| `GlStream.Intrinsic` | libobs-opengl/gl-shaderparser.c:451-490 | The same for the choice between them |
| `GlStream.FindSampler` | libobs-opengl/gl-shaderparser.c:35-45 | A sampler is found at an index that holds its name, and missed only if no index does |
| `GlStream.TextureParam` | libobs-opengl/gl-shaderparser.c:23-33 | A texture parameter is the declared one of that name |
| `GlBlanks.ScanSame` | libobs-opengl/gl-shaderparser.c:492-523 | Blanks never matter: with and without them the same tokens are written, the same bindings made, and the cursor stops at the same place, on every stream |
| `GlBlanks.ContentsSame` | libobs-opengl/gl-shaderparser.c:492-523 | The same from the first token of a body or an argument |
| `GlTranslation.ScanName` | libobs-opengl/gl-shaderparser.c:246-269 | A name that is not expanded is replaced by its GLSL counterpart, once; which that is, name by name, is `GlMeaning.Counterparts` |
| `GlFrames.ResumeMul` | libobs-opengl/gl-shaderparser.c:295-314 | Where the last argument of a product starts, the recursion of the streamer is one more frame on a stack: what it goes on to write is the open text, then the argument under that frame |
| `GlFrames.ResumeTexture` | libobs-opengl/gl-shaderparser.c:378-449 | The same for the coordinates of a texture call, with the sampler bound |
| `GlSettled.StreamExpr` | libobs-opengl/gl-shaderparser.c:451-523 | From the first token of any expression, in any bracket context and after any mistake so far, examined or not: the streamer writes exactly the expected text and bindings and goes on with what follows if the expression settles; and goes wrong if it does not |
| `GlSettled.StreamRegion` | libobs-opengl/gl-shaderparser.c:492-523 | An argument up to its comma, however it begins, is copied right and left on that comma if it settles; otherwise its text is off |
| `GlSettled.StreamMul` | libobs-opengl/gl-shaderparser.c:295-314 | A product call, any arguments: one parenthesised product of parenthesised factors, or exactly the case in which it is not |
| `GlSettled.StreamMad` | libobs-opengl/gl-shaderparser.c:271-293 | The same for mad: a parenthesised sum of a product |
| `GlSettled.StreamSaturate` | libobs-opengl/gl-shaderparser.c:360-376 | The same for saturate: a clamp to 0 and 1 |
| `GlSettled.StreamTexture` | libobs-opengl/gl-shaderparser.c:378-449 | The same for a texture method call: the matching GLSL function of the texture and the coordinates, and its sampler binding |
| `GlSettled.TextStrips` | libobs-opengl/gl-shaderparser.c:271-523 | Blanks aside, the text expected of any expression is the printing of one GLSL expression, its translation |
| `GlExact.SettledExact` | libobs-opengl/gl-shaderparser.c:451-523 | Any expression, in any context that ends on a closing parenthesis, comma, bracket or brace, comes out right to the character if and only if it settles; the cursor, the sincos counter and the bindings are right as well then |
| `GlExact.GuardedSettles` | libobs-opengl/gl-shaderparser.c:492-523 | An expression in which no last argument of mul or mad and no texture coordinates begin with a parenthesis settles in every context; the first and middle arguments may begin as they like |
| `GlExact.ProductExact` | libobs-opengl/gl-shaderparser.c:295-314 | The product of any two clean factors comes out right if and only if the second does not begin with a parenthesis, or is one parenthesised expression and the end token is not a closing parenthesis |
| `GlExact.MadExact` | libobs-opengl/gl-shaderparser.c:271-293 | mad of any three clean arguments comes out right if and only if that holds of the third |
| `GlExact.TextureExact` | libobs-opengl/gl-shaderparser.c:378-449 | A texture call with any clean coordinates comes out right if and only if they do not begin with a parenthesis, or the end token is not a closing parenthesis nor, with several coordinates, a comma |
| `GlExact.BracketedProduct` | libobs-opengl/gl-shaderparser.c:501-522 | (mul(x, (p))) comes out right if and only if the end token is not a closing parenthesis: the outer bracket makes good what the product lost |
| `GlExact.SaturatedTexture` | libobs-opengl/gl-shaderparser.c:360-376 | saturate of a texture call comes out right if and only if the coordinates do not begin with a parenthesis, wherever it stands |
| `GlMeaning.TranslateWellFormed` | libobs-opengl/gl-shaderparser.c:271-523 | The translated tree needs no parentheses of its own: it is well formed at the same precedence level as the source tree, so it fits every operator context |
| `GlMeaning.Counterparts` | libobs-opengl/gl-shaderparser.c:54-95 | The GLSL name of each of the 16 types and the 7 renamed intrinsics, written out |
| `GlMeaning.NamedExactly` | libobs-opengl/gl-shaderparser.c:246-269 | Exactly which calls come back from GLSL as what they were: all of the 16 types and 7 intrinsics (atan2 with two arguments), and of the other names those that mean nothing else in GLSL |
| `GlMeaning.FitsExact` | libobs-opengl/gl-shaderparser.c:410-436 | For each texture method and each type of texture, exactly when the GLSL function written for it exists for that type: Load for 2D and 3D textures, each with its own, biases and levels of detail not for rectangles |
| `GlMeaning.TranslateMeans` | libobs-opengl/gl-shaderparser.c:246-523 | The translated tree, under the samplers that the textures of the shader end up with, has in GLSL the value of the source tree in HLSL, whenever the languages read each part of it alike at the values its own subexpressions take, its texture calls name those samplers and its functions exist in GLSL |
| `GlMeaning.MeaningPreserved` | libobs-opengl/gl-shaderparser.c:246-523 | For every layout of the tokens of an expression that settles, blanks included: they parse as the expression, the streamer stops right behind it, and what it wrote parses as one GLSL expression, with the same value if the languages read the parts alike at the values they take, the samplers agree, and its functions are named and fit as `NamedExactly` and `FitsExact` say |
| `GlMeaning.LedProduct` | libobs-opengl/gl-shaderparser.c:496-508 | A product whose second factor begins with a parenthesis takes that parenthesis for the end of the call: the whole text it comes out as |
| `GlMeaning.LedProductMeans` | libobs-opengl/gl-shaderparser.c:295-314 | By value: mul(x, (p) op r) is computed as GLSL's (x * p) op r |
| `GlReadings.AlikeReads` | libobs-opengl/gl-shaderparser.c:246-314 | A pair of readings that agrees as far as HLSL and GLSL do, by the shapes of operands, reads every expression alike whose operands have such shapes: no mul of two vectors, no * of two matrices, no comparison of vectors, no subscript of a matrix |
| `GlReadings.MethodBack` | libobs-opengl/gl-shaderparser.c:410-436 | The GLSL function written for a texture method is the one that does what that method does, with a sampler where the method has one |
| `GlReadings.FreeReads` | libobs-opengl/gl-shaderparser.c:246-314 | In a reading that tells apart all that the languages do not share, whatever shapes its terms have, exactly those expressions are read alike |
| `GlReadings.MeansExact` | libobs-opengl/gl-shaderparser.c:246-523 | In that reading the translated tree has the value of the source tree if and only if its operands have such shapes, its functions exist in GLSL (`NamedExactly`, and for the types of their textures `FitsExact`) and read alike, and each of its texture calls names the sampler that ends up bound to the texture |
| `GlArithmetic.MulExact` | libobs-opengl/gl-shaderparser.c:295-314 | Over the reals mul gives what GLSL's * gives, for scalars, vectors and matrices of any size, but on two vectors of a length |
| `GlArithmetic.TimesExact` | libobs-opengl/gl-shaderparser.c:492-523 | The operator * copied from HLSL to GLSL: always the same on scalars and vectors; on matrices of a size the same for all values if and only if they have one component |
| `GlArithmetic.TimesOfMatrices` | libobs-opengl/gl-shaderparser.c:492-523 | The failing family: matrices of ones |
| `GlArithmetic.FmodExact` | libobs-opengl/gl-shaderparser.c:451-490 | fmod, written as mod, gives the same if and only if the quotient is not negative or is a whole number |
| `GlArithmetic.RemaindersExact` | libobs-opengl/gl-shaderparser.c:451-490 | The same on vectors, component by component, with vector or scalar divisors |
| `GlArithmetic.FmodOfNegative` | libobs-opengl/gl-shaderparser.c:246-269 | fmod(-1, 2) is -1, mod(-1, 2) is 1 |
| `GlArithmetic.VectorExact` | libobs-opengl/gl-shaderparser.c:54-95 | floatN against vecN: the same on arguments with N components in all, and otherwise only where GLSL has no value either; a single scalar, which GLSL repeats, and an argument with too many components are where they part |
| `GlArithmetic.LerpExact` | libobs-opengl/gl-shaderparser.c:451-490 | lerp, x + s(y - x), against mix, x(1 - a) + ya: the same on scalars and on vectors of a length with a vector or scalar to interpolate by, and otherwise only where HLSL has no value either |
| `GlArithmetic.RealReads` | libobs-opengl/gl-shaderparser.c:246-314 | Arithmetic on real scalars, vectors and matrices as the two languages define it, constructors, interpolation, fractions and remainders included, agrees as far as shapes, sizes and quotients say |
| `GlArithmetic.RealMeans` | libobs-opengl/gl-shaderparser.c:246-523 | So in real arithmetic every expression with such operands keeps its value, float4(...) and lerp among them |
| `GlArithmetic.PositionMeans` | libobs-opengl/gl-shaderparser.c:54-95 | float4(x, w) of three components and one is written with vec4 and is, in GLSL, the vector of those four |
| `GlArithmetic.MulOfVectors` | libobs-opengl/gl-shaderparser.c:295-314 | And mul of two vectors of a length never does: HLSL gives a scalar, GLSL a vector |
| `GlSamplers.BoundAgrees` | libobs-opengl/gl-shader.c:62-85 | The one sampler a texture parameter is given is that of every call of the texture if and only if all of them name the same |
| `GlSamplers.ShaderMeans` | libobs-opengl/gl-shaderparser.c:378-408 | Under every pair of readings: where they read the expressions of a shader alike and each texture is sampled with one sampler, all expressions of its bodies keep their values |
| `GlSamplers.ShaderExact` | libobs-opengl/gl-shaderparser.c:378-408 | Over the expressions of whole bodies: all values are kept in the free reading if and only if every use of a texture names the sampler of its last use, every function exists in GLSL, and all operands have shapes that the languages treat alike |
| `GlSamplers.TwoSamplers` | libobs-opengl/gl-shaderparser.c:397-400 | image.Sample(a, uv) + image.Sample(b, uv) is computed with sampler b twice, under every pair of readings that reads those calls alike |
| `GlBodies.StreamItems` | libobs-opengl/gl-shaderparser.c:492-523 | Over statements, blocks, headers and sincos calls the streamer writes the expected text, one counter value for each sincos, if the items settle; it goes wrong if they do not |
| `GlBodies.StreamSincos` | libobs-opengl/gl-shaderparser.c:316-358 | A sincos call becomes a temporary for the angle and two assignments, in that order, for any arguments that settle |
| `GlBodies.SincosExact` | libobs-opengl/gl-shaderparser.c:316-358 | The sincos of any three clean arguments comes out right, as the statement it is, if and only if the third does not begin with a parenthesis |
| `GlBodies.ItemsStrip` | libobs-opengl/gl-shaderparser.c:316-358 | Blanks aside, the text expected of a list of items is the printing of the translated items |
| `GlBodies.FunctionBody` | libobs-opengl/gl-shaderparser.c:525-553 | A function body that settles ends on its own closing brace, with the text of the translated items written, whatever blanks it contains; what that text means is `GlStores.BodyMeans` |
| `GlBodies.BodyExact` | libobs-opengl/gl-shaderparser.c:525-553 | A body whose sincos calls have third arguments that settle has that text, to the character, if and only if the whole body settles |
| `GlBodies.SincosVarsDistinct` | libobs-opengl/gl-shaderparser.c:316-358 | Different sincos calls never share a temporary |
| `GlStatements.BodyReads` | libobs-opengl/gl-shaderparser.c:316-358 | What the streamer writes for any list of statements, read by a parser of statements: the list in which every sincos call is three statements, of which a branch or a loop that is one keeps only the first; or nothing, where one stands in a header or before an else |
| `GlScopes.BodyCompiles` | libobs-opengl/gl-shaderparser.c:525-553 | From token stream to program: for every layout of a body that settles, what is written parses as statements whose temporaries are all in scope if and only if no sincos call is the whole of a branch or of a loop's body, or stands in a header |
| `GlScopes.UnbracedSincos` | libobs-opengl/gl-shaderparser.c:316-358 | The failing input: if (t) sincos(a, s, d); declares the temporary under the condition, and assigns both results whatever it is, from a variable that is not in scope |
| `GlStores.SincosKept` | libobs-opengl/gl-shaderparser.c:316-358 | The three statements of a sincos call leave the store that the call leaves, apart from the temporary, if the angle is one float and the second result still goes where it went before the first was written |
| `GlStores.LateElement` | libobs-opengl/gl-shaderparser.c:316-358 | In sincos(a, i, arr[i]) it does if and only if i keeps its value |
| `GlStores.RunsKept` | libobs-opengl/gl-shaderparser.c:492-553 | Over assignments, declarations, blocks, branches, loops and returns: a run of the translated statements ends as the run of the source does, with the same store apart from temporaries |
| `GlStores.StoreReads` | libobs-opengl/gl-shaderparser.c:246-314 | What is read alike by the shapes of operands is read alike in every store |
| `GlStores.BodyMeans` | libobs-opengl/gl-shaderparser.c:525-553 | The theorem for bodies, from token stream to store: what is written parses as a program if and only if every sincos call is a statement of its own; and then every run ends as the source's does, if what the run evaluates, assigns and tests is done alike |
| `GlShaderParser.Writer.Next` | libobs-opengl/gl-shaderparser.c:271-314 | cf_next_token on the shared cursor, as the abstract step |
| `GlShaderParser.Writer.WriteFunctionContents` | libobs-opengl/gl-shaderparser.c:492-523 | The imperative streamer appends what the specification says, leaves the cursor where it says, and agrees on counter and bindings, for every token array |
| `GlShaderParser.Writer.WriteIntrinsic` | libobs-opengl/gl-shaderparser.c:451-490 | So does the dispatch; without success the caller goes on from its own token |
| `GlShaderParser.Writer.WriteMul` | libobs-opengl/gl-shaderparser.c:295-314 | So does mul, although its argument clobbers the shared cursor |
| `GlShaderParser.Writer.WriteMad` | libobs-opengl/gl-shaderparser.c:271-293 | So does mad |
| `GlShaderParser.Writer.WriteSaturate` | libobs-opengl/gl-shaderparser.c:360-376 | So does saturate |
| `GlShaderParser.Writer.WriteSincos` | libobs-opengl/gl-shaderparser.c:316-358 | So does sincos |
| `GlShaderParser.Writer.WriteTextureCall` | libobs-opengl/gl-shaderparser.c:378-408 | So does the opening of a texture call, including the sampler it binds |
| `GlShaderParser.Writer.WriteTextureCode` | libobs-opengl/gl-shaderparser.c:410-449 | So does a whole texture call |
| `GlStorage.StorageWriter.WriteStorageVar` | libobs-opengl/gl-shaderparser.c:132-189 | Declares exactly the specified attributes, in order, for any nesting of structs |
| `GlStorage.StorageWriter.WriteMainStorageAssign` | libobs-opengl/gl-shaderparser.c:576-631 | Writes exactly the specified assignments |
| `GlStorage.DeclaredIsFields` | libobs-opengl/gl-shaderparser.c:132-209 | The declarations are those of the leaves that are not built-ins, each once, in order |
| `GlStorage.AssignedIsFields` | libobs-opengl/gl-shaderparser.c:576-631 | Every leaf is assigned exactly once, between its path and its own variable or a built-in |
| `GlStorage.InputsAgree` | libobs-opengl/gl-shaderparser.c:191-197 | Flattening and unflattening agree: the leaves not fed by a built-in take exactly the declared inputs, each once, in order |
| `GlStorage.OutputsAgree` | libobs-opengl/gl-shaderparser.c:638-649 | Every declared output is assigned exactly once from its own field path, and the vertex position goes to gl_Position |
| `GlStorage.JoinExact` | libobs-opengl/gl-shaderparser.c:135-153 | Two field paths have the same flattened name if and only if their names, split at every underscore, give the same pieces |
| `GlStorage.DeclaredDistinct` | libobs-opengl/gl-shaderparser.c:132-189 | The variables declared for a struct have different names if and only if the fields that get one have different pieces |
| `GlRenaming.RenameAttributes` | libobs-opengl/gl-shaderparser.c:696-718 | Every identifier of the text is renamed as specified, and attributes are numbered by their side |
| `GlRenaming.RenamedIff` | libobs-opengl/gl-shaderparser.c:696-718 | For any attributes of any stage: an attribute ends under its own new name if and only if some replacement begins the word it meets and completes it to that name |
| `GlRenaming.KeptMeans` | libobs-opengl/gl-shaderparser.c:696-718 | The condition in terms of names: no earlier name occurs in the attribute's, or the first that does begins it, and its number followed by the rest reads as the attribute's number (N and N0, numbered 1 and 10) |
| `GlRenaming.RenamedExactly` | libobs-opengl/gl-shaderparser.c:696-718 | That condition is enough; and it is needed unless a variable is itself called like a new name. A longer name before a shorter one does no harm |
| `GlRenaming.TailLost` | libobs-opengl/gl-shaderparser.c:696-718 | A vertex input called like an earlier one with a tail, as uv2 after uv, loses its own new name |
| `GlRenaming.OthersUntouched` | libobs-opengl/gl-shaderparser.c:696-718 | Identifiers that contain no attribute name stay as they are |
| `GlRenaming.StagesLink` | libobs-opengl/gl-shaderparser.c:155-209 | A struct returned by the vertex stage and taken by the pixel stage declares the same number of variables on both sides, the k-th with the same type and semantic |
| `GlRenaming.NumbersLink` | libobs-opengl/gl-shaderparser.h:61-67 | In both shader texts the k-th linked identifier becomes the name that both stages count it as if both keep it, and, unless a variable is called like a new name, only then |
| `GlRenaming.DeclaredNumbersLink` | libobs-opengl/gl-shaderparser.c:132-209 | The same from the declarations of both mains, any structs among them, to the final texts |
| `GlLinking.TextsLink` | libobs-opengl/gl-shaderparser.h:61-67 | For a struct that both stages share, in which no path reads like a flattened name: the k-th identifier becomes the same in both texts, always, namely the number of the first path that begins the k-th, and the rest of it |
| `GlLinking.SameName` | libobs-opengl/gl-shaderparser.c:696-718 | Two variables of the struct end up under one name if and only if their paths are the same, or the number of one's lead and the rest of its path read as the number and rest of the other |
| `GlLinking.DigitCollision` | libobs-opengl/gl-shaderparser.c:696-718 | The failing input: N with number 1, N0, and a variable with number 10 |
| `GlLinking.DeclarationsLink` | libobs-opengl/gl-shaderparser.c:132-209 | From the declarations of both mains to the final texts: same types and same identifiers on both sides for every variable of the struct, and different ones for different variables if and only if the paths differ and no numbers collide |
| `IntrusiveList.List.LinkFront` | libobs-opengl/gl-shader.c:646-650 | Linking at the head keeps every next and prev_next pointer right and puts the element first |
| `IntrusiveList.List.Unlink` | libobs-opengl/gl-shader.c:681-684 | Unlinking through the stored pointer address removes exactly that element, keeps the order, and leaves its own successor pointer readable |
| `ListRuns.ListedIsLive` | libobs-d3d11/d3d11-subsystem.cpp:50-68 | Under any interleaving of constructions and destructions the list holds exactly the live objects, each once |
| `ListRuns.UnlinkIsWithout` | libobs-d3d11/d3d11-subsystem.cpp:60-68 | Removing by position is removing that object |
| `ListRuns.Construct` | libobs-d3d11/d3d11-subsystem.cpp:50-58 | The heap list follows the run on a construction |
| `ListRuns.Destruct` | libobs-d3d11/d3d11-subsystem.cpp:60-68 | The heap list follows the run on a destruction |
| `GlPrograms.RunExact` | libobs-opengl/gl-subsystem.c:1076-1139 | In every run of draws and shader destructions there is at most one program for a pair of shaders, the current one is cached, and the cached pairs are exactly those drawn since either shader was last destroyed |
| `GlPrograms.RunCurrent` | libobs-opengl/gl-subsystem.c:1092-1139 | The current program is that of the pair drawn last with success, until one of its shaders is destroyed |
| `GlPrograms.WithoutMembers` | libobs-opengl/gl-shader.c:281-300 | Removal takes out exactly the programs that use the shader |
| `GlPrograms.Device.FindProgram` | libobs-opengl/gl-subsystem.c:1076-1089 | Finds the program of the current pair if there is one, and only then |
| `GlPrograms.Device.CreateProgram` | libobs-opengl/gl-shader.c:601-665 | A program is cached exactly when it links; one that does not leaves the list untouched |
| `GlPrograms.Device.DrawWith` | libobs-opengl/gl-subsystem.c:1092-1139 | A draw succeeds exactly when a program is cached or links, and makes it current |
| `GlPrograms.Device.DestroyProgram` | libobs-opengl/gl-shader.c:667-690 | Destroying clears the current program only if it is that one, and keeps the others in order |
| `GlPrograms.Device.RemoveProgramReferences` | libobs-opengl/gl-shader.c:281-300 | Deleting while traversing leaves exactly the programs that do not use the shader, in order |
| `GlPrograms.Device.DestroyShader` | libobs-opengl/gl-shader.c:302-329 | The cache afterwards is the specified one |
| `GlPrograms.Device.DestroyAll` | libobs-opengl/gl-subsystem.c:327-335 | Destroying the first program until there is none empties the list and the current program |
| `D3dRebuild.OnceIffMatched` | libobs-d3d11/d3d11-rebuild.cpp:509-566 | Every listed object is rebuilt exactly once and nothing else is, if and only if the pairing is a matching of the listed luma and chroma planes |
| `D3dRebuild.PairKeepsMatched` | libobs-d3d11/d3d11-subsystem.cpp:3293-3360 | Creating a pair keeps the matching |
| `D3dRebuild.RemovalKeepsMatched` | libobs-d3d11/d3d11-subsystem.cpp:60-68 | Destroying one object keeps it if and only if the object is no plane of a pair |
| `D3dObjects.PlanesShare` | libobs-d3d11/d3d11-rebuild.cpp:124-189 | The two planes of a listed pair end up on one texture |
| `D3dObjects.RemakeAllHolds` | libobs-d3d11/d3d11-rebuild.cpp:509-566 | What the loop rebuilds is on the new device; everything else keeps what it had |
| `D3dObjects.Device.Register` | libobs-d3d11/d3d11-subsystem.cpp:50-58 | A constructed object is listed first |
| `D3dObjects.Device.Destroy` | libobs-d3d11/d3d11-subsystem.cpp:60-68 | A destroyed one is taken out |
| `D3dObjects.Device.CreatePair` | libobs-d3d11/d3d11-subsystem.cpp:3293-3326 | Two planes, registered in order, naming each other, on one texture |
| `D3dObjects.Device.RebuildPairedY` | libobs-d3d11/d3d11-rebuild.cpp:124-163 | The luma plane makes a texture and its partner takes it over |
| `D3dObjects.Device.ReleaseObjects` | libobs-d3d11/d3d11-rebuild.cpp:431-476 | Every listed object is released exactly once, and no other |
| `D3dObjects.Device.RebuildObject` | libobs-d3d11/d3d11-rebuild.cpp:511-563 | Each kind of object is rebuilt as specified |
| `D3dObjects.Device.RebuildObjects` | libobs-d3d11/d3d11-rebuild.cpp:509-566 | The traversal rebuilds what the specification reaches |
| `D3dObjects.Device.RebuildDevice` | libobs-d3d11/d3d11-rebuild.cpp:418-566 | Listed objects are on the new device or hold nothing, planes share their texture, and all are on the new device if no pair has lost a plane |
| `D3dObjects.Device.OnceIffPairsListed` | libobs-d3d11/d3d11-rebuild.cpp:520-528 | All listed objects exactly once, if and only if both planes of every listed pair are listed |
| `ConstantBuffer.MaskRounds` | libobs-d3d11/d3d11-shader.cpp:176-178 | On machine words the masks are rounding up to, and remainder by, 16 |
| `ConstantBuffer.PlaceLeast` | libobs-d3d11/d3d11-shader.cpp:173-186 | A constant is put at the first place at or after the last one that the source's rule allows: not across two registers, or on a register if larger; the rule is HLSL's, arrays apart |
| `ConstantBuffer.LaidLegal` | libobs-d3d11/d3d11-shader.cpp:137-190 | The positions are in order, disjoint and follow that rule, and end at constantSize |
| `ConstantBuffer.LaidOptimal` | libobs-d3d11/d3d11-shader.cpp:137-190 | No layout of the same constants by that rule puts any of them, or the end, earlier |
| `ConstantBuffer.LaidArraysExact` | libobs-d3d11/d3d11-shader.cpp:173-186 | The packing obeys HLSL's rule for arrays, each element on a register of its own, if and only if every array has elements of whole registers, or is a single element that starts on a register where the packing puts it |
| `ConstantBuffer.PackingExact` | libobs-d3d11/d3d11-shader.cpp:137-190 | All elements of all constants are where HLSL's own packing has them if and only if every array is of those kinds |
| `ConstantBuffer.FloatArrayFails` | libobs-d3d11/d3d11-shader.cpp:173-186 | float a[2] does not: its second element is at byte 4 |
| `ConstantBuffer.EncodePlaces` | libobs-d3d11/d3d11-shader.cpp:319-371 | With values of the right sizes every value lies at its position, every other byte is zero, and the length is constantSize |
| `ConstantBuffer.PlacedExactly` | libobs-d3d11/d3d11-shader.cpp:326-334 | With values of any sizes: every value is appended at its position if and only if none reaches past the position of the next; and then its bytes are found there |
| `ConstantBuffer.UploadPlaces` | libobs-d3d11/d3d11-shader.cpp:358-385 | Of the uploads that pass the size check exactly those without an overrun have every value at its position, and fill the buffer |
| `ConstantBuffer.WrongSizesCompensate` | libobs-d3d11/d3d11-shader.cpp:369-371 | The check of the total size lets two wrong sizes through that cancel out, and the second value is then not at its position |
| `ConstantBuffer.RunCoherent` | libobs-d3d11/d3d11-shader.cpp:319-385 | Over every run of sets, defaults, throwing and normal uploads and rebuilds: something is marked changed, or the next upload throws, or the GPU holds the current values |
| `ConstantBuffer.RunLatest` | libobs-d3d11/d3d11-shader.cpp:445-461 | In every run a parameter's current value is the one set last, explicitly or by default; losing the device leaves the default, or nothing; nothing else about it changes but its flag |
| `ConstantBuffer.UploadFresh` | libobs-d3d11/d3d11-shader.cpp:358-385 | An upload that returns normally leaves on the GPU exactly the values set last, told from the sets, defaults and device losses alone; and it throws for a missing value exactly when one of those is missing |
| `ConstantBuffer.LatestInPlace` | libobs-d3d11/d3d11-shader.cpp:319-385 | With constants as laid out, each set last to a value of its own size, every upload succeeds, and the bytes at each constant's position are the value set last |
| `ConstantBuffer.FailedMapForgets` | libobs-d3d11/d3d11-shader.cpp:373-380 | After a failed Map the next upload returns normally, and is right if and only if the GPU was right already |
| `ConstantBuffer.SetCoherent` | libobs-d3d11/d3d11-shader.cpp:445-461 | Setting a value, equal or not, keeps coherence |
| `ConstantBuffer.UploadCoherent` | libobs-d3d11/d3d11-shader.cpp:319-385 | So does an upload, however it ends |
| `ConstantBuffer.RebuildCoherent` | libobs-d3d11/d3d11-rebuild.cpp:221-249 | So does a rebuild, whatever the new buffer holds |
| `D3dShader.GsShader.BuildConstantBuffer` | libobs-d3d11/d3d11-shader.cpp:137-207 | The loop computes the specified positions and size and then sets the defaults |
| `D3dShader.GsShader.PlaceConstants` | libobs-d3d11/d3d11-shader.cpp:139-190 | Positions and size as specified, nothing else touched |
| `D3dShader.GsShader.SetValInline` | libobs-d3d11/d3d11-shader.cpp:445-461 | The parameter has the value given, and is marked if that is another value; the comparison by size and bytes is a comparison of values |
| `D3dShader.GsShader.SetDefault` | libobs-d3d11/d3d11-shader.cpp:516-521 | The parameter has its default, if there is one; an empty default leaves the value alone |
| `D3dShader.GsShader.UpdateParam` | libobs-d3d11/d3d11-shader.cpp:319-356 | One parameter: exception, growth of the data and flag as specified |
| `D3dShader.GsShader.UploadParams` | libobs-d3d11/d3d11-shader.cpp:358-385 | Every outcome, exceptions included, leaves parameters, flags and buffer as specified |
| `D3dShader.GsShader.RebuildConstants` | libobs-d3d11/d3d11-rebuild.cpp:221-249 | The rebuilt shader has cleared values and reset defaults |
| `InputLayout.NamePart` | libobs-d3d11/d3d11-shaderprocessor.cpp:39-52 | A semantic name ends at the first digit |
| `InputLayout.MappingRead` | libobs-d3d11/d3d11-shaderprocessor.cpp:27-52 | Each of the six names, with any number behind it, is read as that semantic and that number; without one, as number 0 |
| `InputLayout.AssignedLike` | libobs-d3d11/d3d11-shaderprocessor.cpp:125-139 | A slot pass only writes slots that the next pass over a longer layout writes again |
| `InputLayout.LikeAssigned` | libobs-d3d11/d3d11-shaderprocessor.cpp:107-140 | So slots from earlier passes never show in the outcome |
| `InputLayout.Builder.SetSlot` | libobs-d3d11/d3d11-shaderprocessor.cpp:93-105 | The first element of that name and index gets the slot and the counter moves on; otherwise nothing changes |
| `InputLayout.Builder.SetSlots` | libobs-d3d11/d3d11-shaderprocessor.cpp:125-139 | Position, normal, color, tangent and then texture coordinates up to the first gap get consecutive slots |
| `InputLayout.Builder.AddInputLayoutVar` | libobs-d3d11/d3d11-shaderprocessor.cpp:54-91 | A variable is pushed with its semantic, or the exception is thrown; which semantic, for names and numbers, is `InputLayout.MappingRead` |
| `InputLayout.Builder.BuildInputLayoutFromVars` | libobs-d3d11/d3d11-shaderprocessor.cpp:107-140 | For any nesting of structs the outcome is one slot pass over all pushed elements, or the exception; what is pushed for which declarations is `DeclaredInputs.CollectedLeaves` |
| `VertexBuffers.GetBuffersExpected` | libobs-d3d11/d3d11-shader.cpp:31-45 | The flags say which semantics occur, and how many texture coordinates |
| `VertexBuffers.PushBuffer` | libobs-d3d11/d3d11-vertexbuffer.cpp:22-33 | A missing buffer is not put in the list, so the next one takes its place |
| `VertexBuffers.MakeBufferList` | libobs-d3d11/d3d11-vertexbuffer.cpp:48-76 | The arrays hold the specified list of buffers and strides |
| `VertexBuffers.SlotsAgree` | libobs-d3d11/d3d11-vertexbuffer.cpp:48-76 | In a standard layout, in any order of elements, every slot holds its own semantic's buffer and stride if and only if the vertex buffer supplies all that is expected |
| `VertexBuffers.FedExact` | libobs-d3d11/d3d11-vertexbuffer.cpp:48-76 | Whatever the layout: given all the buffers expected of it, every element reads its own one if and only if the layout is empty, or has a position, nothing but positions twice, and texture coordinates from 0 on without a gap |
| `VertexBuffers.SlotsBijective` | libobs-d3d11/d3d11-subsystem.hpp:740-754 | The slots of a standard layout are 0 to NumBuffersExpected - 1, each once |
| `VertexBuffers.ExpectedIsPresent` | libobs-d3d11/d3d11-shader.cpp:31-45 | The flags agree with the stages that get slots, and the texture count with their number |
| `DeclaredInputs.CollectedLeaves` | libobs-d3d11/d3d11-shaderprocessor.cpp:107-118 | What is pushed are the fields that have a semantic, in order, each under the semantic and number it is declared with, but for a plain VERTEXID |
| `DeclaredInputs.FitIff` | libobs-d3d11/d3d11-shaderprocessor.cpp:120-139 | The condition in terms of declarations: a position, nothing but positions twice, only number 0 but for texture coordinates, and those from 0 on without a gap |
| `DeclaredInputs.DeclaredReads` | libobs-d3d11/d3d11-shaderprocessor.cpp:107-149 | From declarations to slots, any nesting of structs: with all that is expected supplied, every field reads at its element's slot the buffer and stride for the semantic and number it is declared with, if and only if nothing is declared or the declarations fit |
| `VertexBinding.RunSound` | libobs-d3d11/d3d11-subsystem.cpp:1804-1841 | In every run of creations, destructions, loads and draws without a rebuild, addresses reused or not: the last pair, if both are set, is live and bound |
| `VertexBinding.RunScene` | libobs-d3d11/d3d11-subsystem.cpp:1834-1841 | What lives and what is loaded is what the creations, destructions, loads and rebuilds say, whatever is remembered of draws |
| `VertexBinding.DrawFresh` | libobs-d3d11/d3d11-subsystem.cpp:1804-1832 | Every draw with a vertex buffer and a shader finds bound what a device without a memory would bind for the two loaded last |
| `VertexBinding.DrawFeeds` | libobs-d3d11/d3d11-subsystem.cpp:1804-1832 | So every element of a standard layout reads its own semantic's buffer in the vertex buffer loaded last |
| `VertexBinding.DrawExact` | libobs-d3d11/d3d11-subsystem.cpp:1804-1832 | Over all runs, rebuilds, reused addresses and draws without a vertex buffer included: a draw leaves in the slots what a fresh load would, if and only if it does not repeat the remembered pair while a rebuild, or the destruction of the buffer loaded last, has made it stale |
| `VertexInput.GsDevice.LoadVertexBufferData` | libobs-d3d11/d3d11-subsystem.cpp:1804-1832 | Loads and remembers, or returns early, as specified |
| `VertexInput.GsDevice.LoadVertexBuffer` | libobs-d3d11/d3d11-subsystem.cpp:1834-1841 | Only the pointer changes |
| `VertexInput.GsDevice.DestroyVertexBuffer` | libobs-d3d11/d3d11-subsystem.cpp:2902-2908 | Forgets the last vertex buffer exactly if it is that one |
| `VertexInput.GsDevice.DestroyVertexShader` | libobs-d3d11/d3d11-shader.cpp:387-393 | Forgets the last vertex shader exactly if it is that one |
| `OutputViews.RunSafe` | libobs-d3d11/d3d11-subsystem.cpp:2036-2125 | In every reachable state: not invalidated means the chosen views are bound, a loaded swap chain leaves no target missing, and only the loaded chain's target is ever in use |
| `OutputViews.SetSafe` | libobs-d3d11/d3d11-subsystem.cpp:2038-2067 | The two-dimensional setter keeps that |
| `OutputViews.CubeSafe` | libobs-d3d11/d3d11-subsystem.cpp:2080-2112 | The cube setter keeps that |
| `OutputViews.LoadSafe` | libobs-d3d11/d3d11-subsystem.cpp:2341-2364 | Loading or unloading a swap chain keeps that, unloading leaves nothing of it in use, and the color space of a target that is no cube becomes the chain's |
| `OutputViews.DestroyChainSafe` | libobs-d3d11/d3d11-subsystem.cpp:2703-2710 | Destroying a swap chain, loaded or not, keeps that |
| `OutputViews.ResizeSafe` | libobs-d3d11/d3d11-subsystem.cpp:1500-1513 | Resizing keeps that |
| `OutputViews.SetFlat` | libobs-d3d11/d3d11-subsystem.cpp:2038-2067 | What the setter leaves does not depend on what was set before |
| `OutputViews.SetCubes` | libobs-d3d11/d3d11-subsystem.cpp:2080-2112 | The cube setter sets the cube, the side and the depth buffer asked for, whatever was set before, and leaves all alone when given no cube |
| `OutputViews.RunGrants` | libobs-d3d11/d3d11-subsystem.cpp:2036-2125 | In every run the device has the target, side, depth buffer and flag that its callers asked for last, the loaded swap chain's where they asked for none |
| `OutputViews.DrawHits` | libobs-d3d11/d3d11-subsystem.cpp:890-910 | A draw goes to the view, of the side and kind asked for, of the target asked for last, and to that depth buffer, if and only if there is such a view; otherwise it goes where the last one went |
| `OutputViews.Restores` | libobs-d3d11/d3d11-subsystem.cpp:2020-2034 | Get, set anything, set back restores target, depth buffer, side and color space |
| `OutputViews.FailedResizeUnsafe` | libobs-d3d11/d3d11-subsystem.cpp:1500-1513 | A resize that throws keeps safety if and only if the views were invalid anyway; otherwise draws go nowhere unnoticed |
| `OutputViews.UnloadsTargets` | libobs-d3d11/d3d11-subsystem.cpp:2341-2364 | Unloading with no target of the caller set leaves none |
| `OutputDevice.GsDevice.FlushOutputViews` | libobs-d3d11/d3d11-subsystem.cpp:890-910 | Early returns included, the flush is the specified one |
| `OutputDevice.GsDevice.SetRenderTargetInternal` | libobs-d3d11/d3d11-subsystem.cpp:2038-2067 | Two separate comparisons and an error path amount to the specified setter |
| `OutputDevice.GsDevice.SetCubeRenderTarget` | libobs-d3d11/d3d11-subsystem.cpp:2080-2112 | The same for cubes |
| `OutputDevice.GsDevice.EnableFramebufferSrgb` | libobs-d3d11/d3d11-subsystem.cpp:2114-2120 | A change marks the views invalid |
| `OutputDevice.GsDevice.LoadSwapchain` | libobs-d3d11/d3d11-subsystem.cpp:2341-2364 | Through either setter, as specified |
| `OutputDevice.GsDevice.DestroySwapchain` | libobs-d3d11/d3d11-subsystem.cpp:2703-2710 | Unloads first if loaded |
| `OutputDevice.GsDevice.ResizeInternal` | libobs-d3d11/d3d11-subsystem.cpp:1500-1513 | With and without the exception |
| `OutputDevice.GsDevice.DevicePresent` | libobs-d3d11/d3d11-subsystem.cpp:2407-2422 | Unbinds and marks; a lost device comes back without targets |
| `StateCache.RunSound` | libobs-d3d11/d3d11-subsystem.cpp:779-870 | Over all runs of setters, draws, failures and rebuilds no two saved states have equal keys, the saved ones are exactly the states that draws asked for when an object could be made, in number too, the requested state is the one asked for last, every saved object was made for its key by the current device, and whatever is bound belongs to that device |
| `StateCache.DrawBindsRequested` | libobs-d3d11/d3d11-subsystem.cpp:779-870 | A draw throws exactly when no object can be made and the state asked for last has none; otherwise it binds an object made for the state asked for last, by the device of the last rebuild |
| `StateCache.UpdateSound` | libobs-d3d11/d3d11-subsystem.cpp:787-813 | One update keeps all of that, also when the device fails |
| `StateCache.RebuildSound` | libobs-d3d11/d3d11-rebuild.cpp:578-594 | So does a rebuild: new objects, made by the new device, for the same keys |
| `StateCache.Cache.Set` | libobs-d3d11/d3d11-subsystem.cpp:2429-2437 | The state given is the requested one; it is marked exactly when it is another or the setter does not compare |
| `StateCache.Cache.AddState` | libobs-d3d11/d3d11-subsystem.cpp:700-725 | A failure leaves the list as it was |
| `StateCache.Cache.UpdateState` | libobs-d3d11/d3d11-subsystem.cpp:787-813 | Search, creation and binding as specified, exception included |
| `StateCache.Cache.RebuildStates` | libobs-d3d11/d3d11-rebuild.cpp:586-594 | All saved objects are made anew, in order |
| `PipelineStates.DescriptionsDetermine` | libobs-d3d11/d3d11-subsystem.cpp:701-777 | Different requests never share a description, through the conversion tables |
| `PipelineStates.TablesInjective` | libobs-d3d11/d3d11-subsystem.hpp:212-316 | The tables from the library's enumerations to Direct3D's never map two values to one |
| `PipelineMeaning.BlendMeans` | libobs-d3d11/d3d11-subsystem.cpp:692-725 | Every render target of the blend description blends and masks as the request says: source and destination factors for color and alpha, the operator, the channels written |
| `PipelineMeaning.CullingMeans` | libobs-d3d11/d3d11-subsystem.cpp:762-777 | The rasterizer description culls what the request says, with front faces counterclockwise |
| `PipelineMeaning.ZStencilMeans` | libobs-d3d11/d3d11-subsystem.cpp:727-760 | The depth-stencil description made for a request tests, masks and operates as the request says, on each side |
| `PipelineStates.States.SetCullMode` | libobs-d3d11/d3d11-subsystem.cpp:2429-2437 | The mode given is the requested one, all else as before, and marked if it is another: comparing one field is comparing the whole state |
| `PipelineStates.States.SetScissorRect` | libobs-d3d11/d3d11-subsystem.cpp:2617-2632 | The same; the one setter that always marks |
| `PipelineStates.States.EnableColor` | libobs-d3d11/d3d11-subsystem.cpp:2484-2496 | The channels given are the requested ones, all else as before; comparing the fields set is comparing the whole state |
| `PipelineStates.States.BlendFunctionSeparate` | libobs-d3d11/d3d11-subsystem.cpp:2512-2525 | The same for the blend factors |
| `PipelineStates.States.StencilFunction` | libobs-d3d11/d3d11-subsystem.cpp:2557-2567 | The test given is requested for the sides given, all else as before; both sides in turn amount to one change |
| `PipelineStates.States.StencilOps` | libobs-d3d11/d3d11-subsystem.cpp:2582-2593 | The same for the operations |
| `MetalAnalysis.ScanBody` | libobs-metal/OBSShader.swift:674-733 | In a body with matching brackets the recursive scan sees every name, in order, and stops on the closing bracket |
| `MetalAnalysis.UniqueSet` | libobs-metal/Sequence+Hashable.swift:21-24 | unique keeps the same elements, each once |
| `MetalAnalysis.AnalysisExact` | libobs-metal/OBSShader.swift:638-733 | Whatever the order of functions, the pass computes exactly the closure along calls to earlier ones, without duplicates |
| `MetalAnalysis.AnalysisComplete` | libobs-metal/OBSShader.swift:638-733 | If functions are declared before they are called: the uniform buffer is required if and only if a reachable body mentions a plain uniform, and textures and samplers are exactly those mentioned |
| `MetalAnalysis.AnalysisMisses` | libobs-metal/OBSShader.swift:690-708 | Otherwise the pass only misses, and misses a uniform if and only if none is mentioned along earlier functions |
| `MetalAnalysis.ForwardCallMissed` | libobs-metal/OBSShader.swift:697-708 | One call to a later function is enough to miss it |
| `MetalAnalysis.ArgumentsMatch` | libobs-metal/OBSShader.swift:1558-1596 | Extra arguments and the callee's extra parameters are the same set and number; and the same list if and only if, of every two textures and every two samplers in the callee's body with earlier functions expanded where they are called, the one declared first is mentioned first |
| `MetalAnalysis.ReverseUse` | libobs-metal/OBSShader.swift:1558-1596 | Two textures used in reverse order change places at a call |
| `MetalAnalysis.UsesInOrder` | libobs-metal/OBSShader.swift:674-733 | The textures and samplers found for a function are those of its expanded body, in the order in which they are first mentioned there |
| `MetalAnalysis.ScopeExact` | libobs-metal/OBSShader.swift:884-934 | What a call passes is in scope in main, which is handed all that is declared, and in callers declared after the callee; in any other caller if and only if it needs, itself or along earlier functions, whatever the callee needs |
| `MetalAnalysis.OutOfScope` | libobs-metal/OBSShader.swift:884-934 | A caller of a later function that mentions a uniform passes the uniform buffer without having it, unless it is main |
| `MetalTranspiler.OBSShader.AnalyzeFunction` | libobs-metal/OBSShader.swift:674-733 | The recursive loop on the shared cursor collects what the scan sees and stops where it stops, on every token array |
| `MetalTranspiler.OBSShader.AtName` | libobs-metal/OBSShader.swift:693-724 | The effect of one name |
| `MetalTranspiler.OBSShader.AnalyzeFunctions` | libobs-metal/OBSShader.swift:638-660 | The dictionary after the pass is the specified one, and the order is recorded |
| `MetalTranspiler.OBSShader.GenerateAdditionalArguments` | libobs-metal/OBSShader.swift:1558-1596 | The names passed at a call |
| `MetalUniforms.AlignmentMask` | libobs-metal/OBSShader.swift:212 | The mask rounds up to a multiple of the alignment |
| `MetalUniforms.RoundUpLeast` | libobs-metal/OBSShader.swift:212 | to the first one |
| `MetalUniforms.SizesByComponents` | libobs-metal/libobs+Extensions.swift:120-163 | Sizes and alignments by the number of components, with three as wide as four |
| `MetalUniforms.OffsetsLayOut` | libobs-metal/OBSShader.swift:193-238 | Offsets are aligned, in order and disjoint, and stay inside the buffer |
| `MetalUniforms.WrittenFramed` | libobs-metal/MetalShader.swift:166-205 | An upload keeps the length, writes each new value in its own range, and changes no other byte |
| `MetalUniforms.RunSound` | libobs-metal/MetalShader.swift:58-70 | In every run each uniform that was set is waiting or in place, and each that was not is zero |
| `MetalUniforms.LatestInPlace` | libobs-metal/MetalShader.swift:233-266 | After every upload each uniform ever set has its latest value in its own range of a buffer of constant, rounded size |
| `MetalUniforms.DefaultsNotUploaded` | libobs-metal/OBSShader.swift:223-229 | A uniform that was never set shows its default if and only if the default is zero |
| `MetalShader.BuildUniforms` | libobs-metal/OBSShader.swift:192-233 | The loop computes the specified offsets and size |
| `MetalShader.Shader.SetParameter` | libobs-metal/MetalShader.swift:58-70 | Stores and marks |
| `MetalShader.Shader.UpdateUniform` | libobs-metal/MetalShader.swift:166-205 | One uniform written and settled |
| `MetalShader.Shader.UploadShaderParameters` | libobs-metal/MetalShader.swift:233-266 | All of them, in order |
| `MetalCommands.RunSound` | libobs-metal/MetalDevice.swift:535-589 | In every run, failures included: a target is never without its flag, a texture is flagged if and only if in flight, anything in flight means an uncommitted buffer, and each texture's draws and clears keep their order |
| `MetalCommands.NextSound` | libobs-metal/MetalDevice.swift:373-400 | Every event keeps that |
| `MetalCommands.RunIssued` | libobs-metal/MetalDevice.swift:207-532 | In every run the commands encoded are those that the events issue, told from the events alone: draws and clears into the target set last, copies, mipmaps, reads and uploads, as far as each got |
| `MetalCommands.NothingLost` | libobs-metal/MetalDevice.swift:535-589 | In every run what has been committed, and what waits, is what was issued: no command is lost or made up |
| `MetalCommands.RunPending` | libobs-metal/MetalDevice.swift:535-589 | The textures in flight are those with a draw or clear since the last commit, told from the events alone |
| `MetalCommands.ReadAfterDraws` | libobs-metal/MetalDevice.swift:635-771 | When a staging read or region copy is committed, all draws and clears that the events issued into its source are committed before it, in their order |
| `MetalCommands.CopyAfterDraws` | libobs-metal/MetalDevice.swift:602-618 | The same for the source of a texture copy |
| `MetalCommands.CopiedThenReadIff` | libobs-metal/MetalDevice.swift:602-618 | Reading a copy's destination next finds the copy committed if and only if the destination had something pending and the source had not |
| `MetalCommands.GeneratedThenReadIff` | libobs-metal/MetalTexture.swift:287-301 | Reading a texture right after its mipmaps were put in the command buffer finds them committed if and only if the texture had a draw or clear pending |
| `MetalCommands.RunInIssueOrder` | libobs-metal/MetalDevice.swift:602-771 | Over all runs, with uploads, mipmaps and the destinations of copies and reads counted: the commands that the events issue on a texture are committed in that order, at every point, if and only if no blit that is committed at once touches the texture while a command on it waits |
| `MetalDevice.Renderer.FinishPendingCommands` | libobs-metal/MetalDevice.swift:576-589 | Commits, clears every flag, empties the set |
| `MetalDevice.Renderer.EnsureCommandBuffer` | libobs-metal/MetalDevice.swift:535-543 | Makes a buffer only if there is none |
| `MetalDevice.Renderer.DoClear` | libobs-metal/MetalDevice.swift:207-329 | Every exit of clear, as specified |
| `MetalDevice.Renderer.DoDraw` | libobs-metal/MetalDevice.swift:349-532 | Every exit of draw, with the target marked only under the flag, and a draw into it encoded at the end |
| `MetalDevice.Renderer.StageTexture` | libobs-metal/MetalDevice.swift:635-651 | Commits first if the source is flagged |
| `MetalDevice.Renderer.DoCopyTexture` | libobs-metal/MetalDevice.swift:602-618 | The same, then joins the current buffer |
| `MetalDevice.Renderer.GenerateMipmaps` | libobs-metal/MetalTexture.swift:287-301 | Joins the current buffer and flags nothing |
| `MetalDevice.Renderer.SetRenderTarget` | libobs-metal/metal-subsystem.swift:357-381 | Sets the flag only for targets that are there |
| `MetalDevice.Renderer.DoBeginFrame` | libobs-metal/metal-subsystem.swift:276-286 | Drops the target, keeps the flag |
| `MetalDevice.Renderer.EnableFramebufferSrgb` | libobs-metal/metal-subsystem.swift:396-403 | Sets the flag on a change |
| `DmaBuf.Filter` | libobs-opengl/gl-egl-common.c:383-398 | The array's front holds exactly the allowed modifiers, in order, the count is theirs, and nothing beyond the queried part changes |
| `DmaBuf.AllowedExactly` | libobs-opengl/gl-egl-common.c:383-398 | An entry is left if and only if it was there with a false flag |
| `DmaBuf.AllowedLength` | libobs-opengl/gl-egl-common.c:383-398 | The count is the number of false flags |

## Left out

- The lexer: the text being written is a list of tokens, not of characters, and the front end's parsed functions, structs and parameters are the starting point; no two tokens are assumed to run together.
- `gl_write_function`'s signature, `gl_write_structs`, the interface block and `gl_write_main`'s calls: straight-line text around the parts proved here.
- GlArithmetic.RealMeans: computes arithmetic, comparisons, products, remainders, interpolation, fractions, vectors of floats and integers, subscripts and matrix constructors; the root in `rsqrt`, derivatives, `atan2`, `uintN`, `%`, shifts and bit operators, and what names and textures stand for, are the same reading on both sides, under the names that `GlMeaning.Counterparts` lists. Integers and rounding are not told apart from reals, and matrix variables are the same matrix on both sides, also the ones of type `float3x4`, which GLSL's `mat3x4` gives three columns.
- GlMeaning.MeaningPreserved: does not model functions of the shader's own called by a GLSL name (`mix`, `texture`); `GlMeaning.Spoken` excludes them.
- GlExact.SettledExact: does not cover a member of a member that is called like a texture parameter (`v.image.x`), which the streamer copies; `v.image` is covered.
- What becomes of an expression that does not settle, beyond its text being wrong: `GlMeaning.LedProductMeans` gives the value for one family. With blanks, `GlExact.SettledExact`'s "only if" is about the tokens without them.
- GlBodies.BodyExact: leaves open bodies with a sincos whose third argument does not settle in itself; for clean arguments that case is `GlBodies.SincosExact`.
- GlSamplers.ShaderExact: compares the expressions of the bodies in order, in the free reading; a reading in which two samplers sample alike keeps more. What bodies do with the values is `GlStores.BodyMeans`.
- GlStores.BodyMeans: its statements are assignments, also with an operator, declarations with a value, sincos calls, blocks, if, else, for with all three parts, and return; `++` and `--`, calls for their effect, break, continue, discard and out parameters are not in it, only in the theorems about text.
- GlRenaming.RenamedExactly: leaves open the need of its condition where a variable is called like a new name; `GlRenaming.RenamedIff` covers that case, by the words the replacements meet.
- GlLinking.DeclarationsLink: supposes that no path, with the parameter's name in front, contains `inputval_` or `outputval`, as a name inside could be taken for another variable.
- GlRenaming.RenameAttributes: names are whole identifiers of the shader text, so a replacement never crosses two of them.
- Only the first parameter of `main` is unflattened in GL; mains with more parameters are not modelled.
- D3D11 parameters of type string or unknown: `BuildConstantBuffer` never gives them a position.
- ConstantBuffer.LaidOptimal: is about the source's rule, in which an array is one constant; HLSL's rule for arrays is `ConstantBuffer.ArraysFit`, and `LaidArraysExact` says when the packing obeys it.
- Element formats of the D3D11 input layout and the texture-unit, sampler and index-buffer caches.
- D3dObjects.Device.RebuildDevice: does not model the duplicator whose restart may throw, the loss callbacks, or the fields it resets; those are in `OutputViews.Next`, `StateCache.Rebuilt` and `VertexBinding.Next`.
- InputLayout.MappingRead: numbers are as large as they are written; the source keeps 32 bits of them.
- VertexBuffers.FedExact: supposes that the normals, colors, tangents and texture coordinates are in buffers other than the points'; if one of them were the points' buffer, a misplaced slot could still read the right data.
- VertexBinding.DrawFresh: is about runs without a rebuild and draws with a vertex buffer; all runs and draws are in `VertexBinding.DrawExact`.
- StateCache.Cache.UpdateState: compares requested states as values, where the source compares their bytes, padding included.
- The bytes a blend, raster or depth description consists of, beyond the fields the source sets.
- OutputViews.Restores: the two-dimensional setter with its color space; a cube target is set back by the cube setter, and the setter without a color space stores sRGB.
- DmaBuf.Filter: the flags, which the loop only reads, are a sequence.
- MetalCommands.RunInIssueOrder: counts draws, clears, copies, blits and uploads by their targets, sources and destinations; the textures a draw samples are not counted as touched.
- MetalAnalysis.AnalysisExact: functions have distinct names; the source keeps them in a dictionary.
- Metal's texture uniforms in vertex shaders, whose storage type and parameter type disagree; encoding of pipelines, depth-stencil states and vertex buffers; presentation and display stages.
- Metal `mul` and `mad`, whose output has no outer parentheses (libobs-metal/OBSShader.swift:1399, 1425); GL framebuffer attachment, which ignores the cube side.
- Floating-point matrices, window handling, monitors, adapters, timers, logging, the shader cache on disk, and the whole Qt frontend.
