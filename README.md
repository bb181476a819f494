# portalcoder — a Dafny model of the portal's core

portalcoder is the web portal of a programming school. Its browser side keeps two
registries in `localStorage`, one of users (`UserManager`) and one of courses
(`CourseManager`). It also runs the login form, the course list, the "Meus Cursos"
enrolment list and a small API client. Its Express back end serves read-only
content documents, course CRUD over `courses.json`, a user registry over
`users.json` with bcrypt-hashed passwords, a login route, and image/video assets.

This project models that core in Dafny, one module per source file:

| module | file | models |
|---|---|---|
| `JsStrings` | `js_strings.dfy` | `trim`, ASCII case folding of `/.../i`, `String(n)` and `parseInt(s, 10)` |
| `JsValues` | `js_values.dfy` | JSON values and objects: property access, truthiness, `||`, rest-destructuring, `find`/`findIndex`, `splice`, a `localStorage` slot |
| `UserManagement` | `user_manager.dfy` | `user-manager.js`: class `UserManager` over its storage slot |
| `CourseManagement` | `course_manager.dfy` | `course-manager.js`: class `CourseManager` over its storage slot |
| `ServerEnvelope` | `server_envelope.dfy` | the `{ success, message, data }` answer with its status code |
| `ContentRoutes` | `content_routes.dfy` | `backend/routes/content.js`: class `CoursesRoute` over `courses.json` |
| `UsersRoutes` | `users_routes.dfy` | `backend/routes/users.js`: class `UsersRoute` over `users.json` |
| `AuthRoutes` | `auth_routes.dfy` | `backend/routes/auth.js` |
| `AssetsRoutes` | `assets_routes.dfy` | `backend/routes/assets.js` |
| `ApiClientModel` | `api_client.dfy` | `api-client.js` |
| `PortalScript` | `portal_script.dfy` | `script.js`: login form, password and contact forms, course list, class `MeusCursos` |

The model makes these choices:

- **Objects.** A JavaScript object is a `map<string, Value>`. A missing property
  reads as `Undefined`, so spreads, `Object.assign` and `{ senha, ...rest }` are
  exact map operations.
- **State.** Every store the source rewrites is a class field: a `localStorage`
  key or a JSON file on the server. Each handler is a method with `modifies this`
  whose `ensures` gives the new state in terms of the old one, for every branch.
- **Effects become parameters.** A write that may fail is a `saveOk`/`writeOk`
  flag. The clock, `Math.random` and ISO timestamps are string parameters. The
  outcome of `fetch` is a datatype value. `fs.existsSync` is the function
  parameter `onDisk`.
- **bcrypt.** `bcrypt.hash` is an uninterpreted `H: string -> string`, and
  `bcrypt.compare(p, s)` is `H(p) == s`. bcrypt throws on a non-string argument,
  and the model sends that to the handler's `catch` (500).

## Model

| member | source | states |
|---|---|---|
| `JsStrings.TrimStart` | script.js:2-3 | the result is a suffix of the input, everything dropped is whitespace, and it does not start with whitespace |
| `JsStrings.TrimEnd` | script.js:2-3 | the result is a prefix of the input, everything dropped is whitespace, and it does not end with whitespace |
| `JsStrings.TrimEmptyIff` | script.js:6 | a field trims to `""` exactly when every character of it is whitespace |
| `JsStrings.TrimIdempotent` | script.js:2-3 | trimming twice equals trimming once |
| `JsStrings.TrimStartPadded` | script.js:2 | leading whitespace in front of a non-blank start is removed, and nothing else |
| `JsStrings.TrimEndPadded` | script.js:2 | trailing whitespace behind a non-blank end is removed, and nothing else |
| `JsStrings.Trim` | script.js:2-3 | the trimmed text neither starts nor ends with whitespace and is no longer than the input |
| `JsStrings.TrimCutsBlanks` | script.js:2-3 | the input is a blank prefix, then the trimmed text, then a blank suffix |
| `JsStrings.TrimPadded` | script.js:2-3 | `trim` returns exactly the text between the blanks, and leaves an already trimmed text unchanged |
| `JsStrings.LowerAsciiString` | backend/routes/assets.js:17 | case folding keeps the length and lower-cases each ASCII letter in place |
| `JsStrings.NatToString` | script.js:531 | `String(n)` is a non-empty run of digits without a leading zero |
| `JsStrings.IntToString` | script.js:526 | `String(n)` is digits only for `n >= 0`, and `-` followed by digits otherwise |
| `JsStrings.DigitPrefix` | backend/routes/content.js:141 | `parseInt` reads the longest digit run at the front, and stops only at a non-digit or the end |
| `JsStrings.ParseInt` | backend/routes/content.js:141 | NaN exactly when no digit follows the leading blanks and an optional sign; the value is never negative without a `-` and never positive after one |
| `JsStrings.DigitsOfNat` | backend/routes/content.js:147 | the digits of `String(n)` read back as `n` |
| `JsStrings.ParseIntRoundTrip` | backend/routes/content.js:147 | `parseInt(String(n), 10) === n` for every integer |
| `JsValues.Without` | user-manager.js:86 | `{ senha: _, ...rest }` drops exactly the one property and keeps every other value |
| `JsValues.MergeKeepingId` | course-manager.js:137-141 | the update wins on every property except `id`, the old record keeps all others, and `id` is the given one |
| `JsValues.FirstWithUnique` | user-manager.js:67 | only one index can be the first match of a `find` |
| `JsValues.IndexOf` | user-manager.js:149 | `findIndex`: `-1` exactly when nothing matches, otherwise the first matching index |
| `JsValues.Find` | user-manager.js:211 | `find`: nothing exactly when nothing matches, otherwise the first matching record |
| `JsValues.RemoveAt` | user-manager.js:166 | `splice(i, 1)` keeps every other element, in order |
| `JsValues.Load` | user-manager.js:38-46 | an absent or unparseable item reads as `[]`, a stored array as itself |
| `UserManagement.DefaultUsers` | user-manager.js:12-30 | two seeded accounts with distinct login names and emails; only the first is the protected primary admin |
| `UserManagement.GenerateUserId` | user-manager.js:60-62 | the id is `user_`, the clock, `_`, then the random part |
| `UserManagement.NewUser` | user-manager.js:115-123 | the new record holds the generated id, each given field under its own name, and the creation stamp |
| `UserManagement.CheckLogin` | user-manager.js:65-93 | an unknown name gives `usuario_inexistente`; a mismatching password on the first record with that name gives `senha_incorreta`; otherwise that record without `senha` |
| `UserManagement.SetPassword` | user-manager.js:193 | only the `senha` of record `i` changes |
| `UserManagement.UserManager.constructor` | user-manager.js:3-6 | an empty store is seeded with the default accounts, otherwise adopted as it is |
| `UserManagement.UserManager.GetAllUsers` | user-manager.js:38-46 | the stored array, or `[]` when the item is absent or does not parse |
| `UserManagement.UserManager.SaveUsers` | user-manager.js:49-57 | the store becomes the array exactly when the write succeeds |
| `UserManagement.UserManager.InitializeDefaultUsers` | user-manager.js:9-35 | only an empty store is seeded |
| `UserManagement.UserManager.ValidarLogin` | user-manager.js:65-93 | the login check against the stored array; it writes nothing |
| `UserManagement.UserManager.AdicionarUsuario` | user-manager.js:96-139 | a taken name is refused, then a taken email; otherwise exactly the new record is appended; uniqueness of names and emails is kept |
| `UserManagement.UserManager.RemoverUsuario` | user-manager.js:147-179 | an unknown name changes nothing; the primary admin is never removed; otherwise only the first match goes; uniqueness is kept |
| `UserManagement.UserManager.AlterarSenha` | user-manager.js:182-206 | only that user's `senha` changes, or nothing for an unknown name |
| `UserManagement.UserManager.BuscarUsuarioPorId` | user-manager.js:209-212 | the first record with the id, or none exactly when no record has it |
| `UserManagement.UserManager.BuscarUsuarioPorNome` | user-manager.js:215-218 | the first record with the login name, or none exactly when no record has it |
| `UserManagement.RemovalKeepsPrimaryAdmin` | user-manager.js:159-166 | removing any record but the primary admin keeps every primary admin record |
| `UserManagement.RemovalKeepsUnique` | user-manager.js:166 | removing a record keeps login names and emails unique |
| `UserManagement.AddedUserCanLogin` | user-manager.js:96-139 | a user just added logs in with its password, and any other password is `senha_incorreta` |
| `UserManagement.SeededAdminWrongPassword` | user-manager.js:14-19 | against the seeded accounts, `admin`/`1234` logs in and `admin` with any other password is `senha_incorreta` |
| `CourseManagement.Course` | course-manager.js:111-120 | the new course holds the generated id, each given field under its own name, and the creation stamp |
| `CourseManagement.DefaultCourses` | course-manager.js:12-73 | one record per sample course, in seeding order, each with every seeded field and the creation stamp |
| `CourseManagement.DefaultCourseIdsDistinct` | course-manager.js:14-64 | no two seeded courses share an id |
| `CourseManagement.KeptChars` | course-manager.js:103 | an ASCII capital becomes its lower-case letter, `[a-z0-9]` is kept, U+0130 gives `i` and the Kelvin sign `k`, every other character is dropped |
| `CourseManagement.IdLetters` | course-manager.js:103 | the result has only `[a-z0-9]`, is no longer than the name, is the name itself when it has only those, and a one-character name gives that character's `KeptChars` |
| `CourseManagement.IdLettersAppend` | course-manager.js:103 | the name is folded character by character: the result of a concatenation is the concatenation of the results |
| `CourseManagement.IdPrefix` | course-manager.js:103 | the first at most ten id characters of the name |
| `CourseManagement.GenerateId` | course-manager.js:102-105 | the id starts with the prefix and `_` |
| `CourseManagement.DropId` | course-manager.js:150 | no course with the id survives, and the length is unchanged exactly when none had it |
| `CourseManagement.DropIdMembers` | course-manager.js:150 | a course survives the filter exactly when its id differs |
| `CourseManagement.DropIdAppend` | course-manager.js:150 | the filter keeps the order of the courses |
| `CourseManagement.CourseManager.constructor` | course-manager.js:3-6 | an empty store is seeded with the six courses, otherwise adopted |
| `CourseManagement.CourseManager.GetAllCourses` | course-manager.js:80-88 | the stored array, or `[]` when absent or unparseable |
| `CourseManagement.CourseManager.SaveCourses` | course-manager.js:91-99 | the store becomes the array exactly when the write succeeds |
| `CourseManagement.CourseManager.InitializeDefaultCourses` | course-manager.js:9-77 | only an empty store is seeded |
| `CourseManagement.CourseManager.AdicionarCurso` | course-manager.js:108-126 | exactly the new course is appended and returned, or `null` with no change when the save fails |
| `CourseManagement.CourseManager.AtualizarCurso` | course-manager.js:129-145 | an unknown id changes nothing; otherwise only the first match is replaced by its merge, id kept |
| `CourseManagement.CourseManager.RemoverCurso` | course-manager.js:148-157 | `false` with no write when no course has the id; otherwise every course with it is dropped |
| `CourseManagement.CourseManager.GetCursoById` | course-manager.js:160-163 | the first course with the id, or `null` exactly when none has it |
| `ServerEnvelope.Ok` | backend/routes/content.js:42-45 | a success answer is status 200 carrying its data |
| `ServerEnvelope.Fail` | backend/routes/content.js:47-50 | a failure answer carries its status and message and no data |
| `ContentRoutes.ServeDocument` | backend/routes/content.js:38-59 | the parsed document with 200, or 404 with the route's message when it cannot be read |
| `ContentRoutes.GetCourses` | backend/routes/content.js:86-111 | the courses document, or 404 "Lista de cursos não encontrada" |
| `ContentRoutes.CourseArray` | backend/routes/content.js:121-122 | the document's `courses` array, or `[]` for a missing file or a document without one |
| `ContentRoutes.CourseArrayOfWrite` | backend/routes/content.js:120-123 | a missing, unreadable or array-less file reads as `[]`, and writing a list back reads it again |
| `ContentRoutes.IdForMax` | backend/routes/content.js:123 | `c.id \|\| 0` as `Math.max` sees it: a numeric id is itself, `true` is 1, anything else 0 |
| `ContentRoutes.MaxIdFrom` | backend/routes/content.js:123 | the fold's result is at least the start value and every id, and is one of them |
| `ContentRoutes.NextId` | backend/routes/content.js:123 | the new id is at least 1, exceeds every existing id, and is one more than the largest |
| `ContentRoutes.NewCourse` | backend/routes/content.js:125 | every payload property is kept, and `id` is the next id unless the payload has one |
| `ContentRoutes.ParsedId` | backend/routes/content.js:147 | `parseInt(c.id, 10)`: a numeric id is itself, a string id is parsed, anything else is NaN |
| `ContentRoutes.UsableIdIff` | backend/routes/content.js:141-143 | a parameter written as `String(n)` passes the `!id` guard exactly when `n` is not 0 |
| `ContentRoutes.IndexOfParsedId` | backend/routes/content.js:147 | the first course whose `parseInt(id)` equals the parameter, or `-1` exactly when none does |
| `ContentRoutes.CoursesRoute.constructor` | backend/routes/content.js:8 | the route starts from the stored file |
| `ContentRoutes.CoursesRoute.Create` | backend/routes/content.js:114-136 | a missing payload or falsy `name` is a 400 with no write; otherwise the new course is appended with the next id, or 500 with no change |
| `ContentRoutes.CoursesRoute.Update` | backend/routes/content.js:139-160 | NaN or 0 is a 400, an unknown id a 404; otherwise only the first match is merged, original id kept |
| `ContentRoutes.CoursesRoute.Delete` | backend/routes/content.js:163-183 | NaN or 0 is a 400, an unknown id a 404; otherwise only the first match is removed and returned |
| `ContentRoutes.CreatedCourseIsAddressable` | backend/routes/content.js:114-183 | a course created without its own id is selected exactly by `String(id)` in PUT and DELETE |
| `ContentRoutes.TwoCreatesOnEmpty` | backend/routes/content.js:120-127 | two creates on an empty collection get ids 1 and 2, in order |
| `ContentRoutes.DeleteUnknownIdIsNotFound` | backend/routes/content.js:165-171 | with ids 1 and 2, DELETE of 99 is a 404 |
| `UsersRoutes.ReadUsers` | backend/routes/users.js:12-23 | a missing or unparseable file reads as `[]`; a parsed non-array is the value the handlers' `find` throws on |
| `UsersRoutes.Hash` | backend/routes/users.js:83 | bcrypt hashes strings and throws on anything else |
| `UsersRoutes.Pick` | backend/routes/users.js:102-109 | the answer object holds exactly the named properties that the record has, with its values |
| `UsersRoutes.NewServerUser` | backend/routes/users.js:86-94 | the stored user holds the hash in `senha`, and `tipo` defaults to `'usuario'` |
| `UsersRoutes.CreateEchoIsRecordWithoutSenha` | backend/routes/users.js:102-109 | what POST echoes is the stored record without `senha` |
| `UsersRoutes.ListUsers` | backend/routes/users.js:42-56 | always 200 with what the file parsed to, hashes included |
| `UsersRoutes.UsersRoute.constructor` | backend/routes/users.js:9 | the route starts from the stored file |
| `UsersRoutes.UsersRoute.Create` | backend/routes/users.js:59-124 | the refusals in order (missing field, unreadable list, taken name or email), then exactly one hashed record is appended; the answer has no `senha`; uniqueness is kept |
| `UsersRoutes.UsersRoute.Delete` | backend/routes/users.js:127-165 | an unknown id is a 404 with no write; otherwise exactly the first match is removed and summarised |
| `UsersRoutes.UsersRoute.ChangePassword` | backend/routes/users.js:168-212 | a missing new password is a 400 before any lookup; an unknown id a 404; otherwise only that `senha` becomes the hash |
| `UsersRoutes.UsersRoute.GetById` | backend/routes/users.js:215-242 | the first record with the id without `senha`, or 404 exactly when none has it |
| `UsersRoutes.AppendKeepsUnique` | backend/routes/users.js:74-96 | the combined name-or-email check keeps both unique when a user is appended |
| `AuthRoutes.Login` | backend/routes/auth.js:26-80 | missing fields, unknown user and wrong password are told apart in that order; a success returns the record without `senha` exactly when the password hashes to the stored one |
| `AuthRoutes.MissingFileMeansUnknownUser` | backend/routes/auth.js:12-23 | with no readable users file every filled-in login is an unknown user |
| `AuthRoutes.CreatedUserCanLogin` | backend/routes/auth.js:39-70 | a user created by POST `/api/users` logs in with its password and gets what the create echoed; other passwords are `senha_incorreta` |
| `AssetsRoutes.FilterByExtension` | backend/routes/assets.js:16-17 | a file is kept exactly when it is listed and matches the extension pattern |
| `AssetsRoutes.FilterByExtensionAppend` | backend/routes/assets.js:16-17 | the filter keeps listing order |
| `AssetsRoutes.ToAssets` | backend/routes/assets.js:18-22 | one entry per file, with its name, URL and path |
| `AssetsRoutes.ListAssets` | backend/routes/assets.js:12-42 | always 200; a missing folder gives `[]` with a message; otherwise exactly the matching files in order |
| `AssetsRoutes.ListImages` | backend/routes/assets.js:12-42 | every entry is a listed image file, with the `/api/assets/images/` URL and its path |
| `AssetsRoutes.ListVideos` | backend/routes/assets.js:45-75 | every entry is a listed video file, with the `/api/assets/videos/` URL and its path |
| `AssetsRoutes.ListingIsComplete` | backend/routes/assets.js:16-22 | every listed file that matches appears in the answer |
| `AssetsRoutes.ServeFile` | backend/routes/assets.js:78-98 | the file is sent exactly when it exists, otherwise 404 |
| `AssetsRoutes.ServeImage` | backend/routes/assets.js:78-98 | the image is sent exactly when it exists, otherwise 404 "Imagem não encontrada" |
| `AssetsRoutes.ServeVideo` | backend/routes/assets.js:101-121 | the video is sent exactly when it exists, otherwise 404 "Vídeo não encontrado" |
| `AssetsRoutes.ServeLogo` | backend/routes/assets.js:124-146 | `logo.png` first, then `logo.svg`, then 404 |
| `AssetsRoutes.ListedImagesAreServed` | backend/routes/assets.js:12-98 | every listed image is served from the path the listing reports |
| `AssetsRoutes.ExtensionIgnoresCase` | backend/routes/assets.js:17 | the extension pattern ignores ASCII case |
| `AssetsRoutes.ListedExtensionMatches` | backend/routes/assets.js:17 | a file named `<base>.<ext>` with a listed lower-case extension matches, whatever the base |
| `ApiClientModel.ApiClient.constructor` | api-client.js:3-6 | the base URL defaults to `http://localhost:3000`, and the API URL appends `/api` |
| `ApiClientModel.ApiClient.RequestUrl` | api-client.js:11 | a request goes to the base URL, `/api`, then the endpoint |
| `ApiClientModel.ApiClient.LogoUrl` | api-client.js:62-65 | the logo URL is the request URL of `/assets/logo` |
| `ApiClientModel.ApiClient.ImageUrl` | api-client.js:68-70 | an image URL is the request URL of `/assets/images/<file>` |
| `ApiClientModel.ApiClient.VideoUrl` | api-client.js:73-75 | a video URL is the request URL of `/assets/videos/<file>` |
| `ApiClientModel.ApiClient.ProbeUrl` | api-client.js:80 | the availability probe fetches the config document |
| `ApiClientModel.Request` | api-client.js:9-29 | a body comes back exactly for an `ok` answer that parses |
| `ApiClientModel.IsBackendAvailable` | api-client.js:78-88 | available exactly when the probe is answered `ok` |
| `ApiClientModel.LoadSiteData` | api-client.js:91-110 | all four documents, or `null` as soon as one request fails |
| `ApiClientModel.InitializeSite` | api-client.js:117-168 | local data are used exactly when the probe, the loading or the page update fails |
| `ApiClientModel.OneFailureMeansLocal` | api-client.js:91-168 | one failed request anywhere makes the page start from local data |
| `ApiClientModel.ClientUrlsMatchListing` | api-client.js:68-70 | a listed image's URL, under the client's base URL, is the client's image URL |
| `ApiClientModel.ClientVideoUrlsMatchListing` | api-client.js:73-75 | the same for videos |
| `PortalScript.ErrorAlert` | script.js:39-58 | `usuario_inexistente` and `senha_incorreta` get their own text and colour; any other refusal shows its own message in red |
| `PortalScript.SubmitLogin` | script.js:1-62 | blank fields are refused before the store is read; a refusal is shown by its kind; a success goes to the dashboard exactly for `tipo` `admin`, and keeps no `senha` |
| `PortalScript.BlankFieldIsRejected` | script.js:2-11 | a field of blanks stops the form |
| `PortalScript.RefusalsAreClassified` | script.js:39-58 | a refusal of the local check is never shown as a pass-through red message |
| `PortalScript.PaddingIsIgnored` | script.js:2-3 | blanks around the name or the password do not change the outcome |
| `PortalScript.SubmitLoginSeesTrimmedFields` | script.js:2-15 | the form reads its fields only through their trimmed values |
| `PortalScript.SaveEnabled` | script.js:231-236 | the save button is enabled exactly when both fields are filled and equal |
| `PortalScript.PasswordChangeBlocker` | script.js:257-269 | empty fields are reported first, then a mismatch |
| `PortalScript.ButtonMatchesHandler` | script.js:231-269 | the change goes ahead exactly when the button would be enabled |
| `PortalScript.ContactFormValid` | script.js:376-392 | the contact form is accepted exactly when no field is blank |
| `PortalScript.ToUiCourse` | script.js:469-477 | the id is kept; a truthy `nome` wins over `name`; description, duration, level and category take the Portuguese field, then the English one, then `''`; a falsy emoji is `''`; no other property is present |
| `PortalScript.RegistryCourseShowsItsFields` | script.js:469-477 | a course from the local registry is shown with its own fields |
| `PortalScript.FetchCursos` | script.js:460-498 | a non-empty local registry wins, mapped element by element; otherwise the API's list or `null` |
| `PortalScript.Enrolment` | script.js:531 | the entry's id is `srv-` and the course id, its title is `name \|\| title`, and its progress is 0 |
| `PortalScript.FindByStringId` | script.js:526 | the first course whose `String(id)` matches, or none exactly when none does |
| `PortalScript.PythonOrEnglish` | script.js:595 | a course is kept exactly when its title matches `/python/i` or `/ingl/i` |
| `PortalScript.PythonOrEnglishAppend` | script.js:595 | the filter keeps the API's order |
| `PortalScript.NamedPythonIsPicked` | script.js:595 | a course whose name contains "python" in any ASCII case passes the filter |
| `PortalScript.SampleCourses` | script.js:608 | the two fallback entries are Python (`c-py`) then Inglês (`c-en`) |
| `PortalScript.MeusCursos.constructor` | script.js:529 | the list starts from the stored value |
| `PortalScript.MeusCursos.Inscrever` | script.js:523-535 | an unknown course or a title already listed changes nothing; otherwise exactly one entry is appended |
| `PortalScript.MeusCursos.InitFromApiOrFallback` | script.js:592-612 | the API's Python and English courses replace the list; otherwise a stored list is kept and an empty store gets the two samples |
| `PortalScript.EnrolledTitleIsListed` | script.js:530-532 | after an enrolment the title is listed, so enrolling again is refused |
| `PortalScript.PickedCoursesAreOnTopic` | script.js:594-596 | only Python and English courses from the API end up in the list |

## Left out

- **Rendering and page glue.** DOM rendering, modals, timers, redirects, `sessionStorage`, the speech synthesiser and the font-size controls are left out: they are page effects, not logic. This covers `renderizarTabelaCursos`, `editarCurso` and `removerCursoComConfirmacao` in `course-manager.js`, and the `update*` and `initializeWithLocalData` functions in `api-client.js`.
- **`script.js` wrappers.** `adicionarUsuario`, `listarUsuarios`, `removerUsuario` and `alterarSenha` in `script.js` only forward to `UserManager`, whose methods are modelled. `listarUsuarios` is `GetAllUsers`.
- **`getTexts`, `getSchoolInfo`, `getCourses`, `getConfig`, `getImages`, `getVideos`.** Each is `request` on a fixed endpoint, which `ApiClientModel.Request` and `RequestUrl` cover.
- **Server-side catch blocks.** Only the throws the handlers can reach on well-shaped records are modelled: `find` on a non-array, and bcrypt on a non-string. Arrays whose elements are not objects, and other unexpected exceptions, are not.
- **`GET /api/auth/verify`.** It returns a constant, so it is not modelled.
- **Numbers.** Numbers are integers. NaN, fractions and floating-point precision are not modelled, and `parseInt` of a digit run beyond 2^53 is exact here.
- **`ContentRoutes.IdForMax` and `ContentRoutes.NextId`.** A string id counts as 0. `Math.max` would coerce it instead: a numeric string by its value, any other string to NaN, which makes the new id NaN.
- **`ContentRoutes.ServeDocument`.** A document that parses to a falsy JSON value (`0`, `""`, `false`, `null`) is answered 404 by the source. The model treats every readable document as served.
- **`JsValues.Load`.** `Slot` has no case for a stored item that parses to a non-array (`"null"`, `"{}"`). `user-manager.js:41` and `course-manager.js:83` return such a value as it is, and the next `.find` or `.push` on it throws. Only a writer other than the portal can store one.
- **`ContentRoutes.CoursesFile`.** A `courses.json` that parses to a non-object is not modelled.
- **`UsersRoutes.ListUsers`.** A parsed non-array is echoed by the source as it is. The model marks it `None` instead of carrying the value.
- **`ContentRoutes.CoursesRoute.Create` and `Update`.** `JSON.stringify` drops `undefined` properties, but the model keeps them in the stored record.
- **`AssetsRoutes.Join`.** `path.join` normalisation and `..` traversal in a file name are not modelled. `Join` is plain concatenation with `/`.
- **Id generators.** `generateId` is not guaranteed unique by the source either. The clock and random parts are parameters, and uniqueness of generated ids is not claimed.
- **`UserManagement.DefaultUsers` and `CourseManagement.DefaultCourses`.** All seeded records share one timestamp `now`. The source calls `new Date()` once per record.
- **Storage writes.** `localStorage.setItem` throwing is the `saveOk` flag. A rejected `async` function in `script.js` leaves the list unchanged and shows nothing (`StorageError`, or `None` in `InitFromApiOrFallback`).
- **`PortalScript.ApiCourses`.** `data.courses` and a bare array are merged into one case, and a truthy `data.courses` that is not an array is not modelled.
- **`ApiClientModel.InitializeSite`.** Whether updating the page throws is the parameter `renderThrows`. The `fetch` timeout option is ignored.
- **Unicode.** `trim` uses ECMAScript's whitespace set. Case folding covers ASCII, which is what the `/i` patterns without the `u` flag need, except for the two non-ASCII characters `generateId` handles explicitly (`KeptChars`).
- **Concurrency.** Concurrent requests on the same JSON file are not modelled: each handler runs alone on the file it reads.
