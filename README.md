# TUCSFE RAG demo: a verified model of its decision logic

This project models the logic of the TUCSFE retrieval-augmented question-answering
demo. The demo is a FastAPI back end with Google sign-in. Users, sessions,
feedback and events live in MongoDB. A RAG pipeline loads a folder of text files,
chunks them, builds or loads a FAISS index, retrieves context and asks Gemini.
Beside it sit a keyword responder, a secret resolver and a feedback collector.

Every foreign service is an oracle that may succeed or fail:

- MongoDB reachability and call success (`Mongo.Net`);
- the token-info HTTP reply (`Api.TokenInfo`);
- bcrypt (`Auth.Verifier`, and the stored hash as a parameter);
- uuid4 (a token fresh for the store);
- `os.walk`, `open`, `os.listdir` (`Loader.FileSystem`, `Rag.Listing`);
- the text splitter, FAISS load/build/search and Gemini (`Rag.Services`);
- Vertex and HuggingFace embeddings (`Embedder`);
- the Azure and GCP secret SDKs and the environment (`Secrets.Backends`, `Secrets.Env`).

The clock is an integer number of seconds that the caller passes in.

One module per source file:

- `Mongo` (`utils/mongo.py`): the store state `DB`, one pure step function per operation giving the result and the new state, lemmas about them, and `class Store` whose methods update its fields and are proved equal to the step functions.
- `Auth` (`utils/auth.py`) and `Api` (`api.py`): handlers as step functions over `DB`, with methods on `Store`.
- `Loader`, `Retriever`, `Embedder`, `Rag` (`rag_pipeline/`).
- `Responder` (`core/responder.py`), `Secrets` (`utils/secrets.py`), `Feedback` (`feedback.py`).
- `Text` holds the Python string operations the core relies on (`strip`, `lower`, `in`, `endswith`, `join`). `Wrappers` holds `Option`, `Result` and `Outcome`.

## Model

| member | source | states |
|---|---|---|
| Text.Strip | rag_pipeline/loader.py:24 | `str.strip()` is "" exactly when the text is all Python whitespace, and otherwise neither starts nor ends with whitespace |
| Text.StripIsCut | rag_pipeline/loader.py:24 | `str.strip()` is the input with a blank prefix and a blank suffix cut off |
| Text.Contains | core/responder.py:34 | Python's `sub in s` holds exactly when `sub` occurs at some position of `s` |
| Text.LowerAppend | rag_pipeline/loader.py:13 | `lower()` distributes over concatenation |
| Text.LowerIdempotent | rag_pipeline/loader.py:13 | lowercasing an already lowercased string changes nothing |
| Text.CutAt | rag_pipeline/loader.py:24 | `r` is the slice of `s` left after cutting a blank prefix of a given length and a blank suffix |
| Text.JoinAppend | rag_pipeline/retriever.py:10 | joining a concatenation is joining each part, with one separator between them when both parts are non-empty |
| Text.JoinEmpty | rag_pipeline/retriever.py:10 | a join of non-empty parts is "" exactly when there are no parts |
| Mongo.Find | utils/mongo.py:122 | `find_one({"token": t})` gives the first document that carries `t`, or none exactly when no document does |
| Mongo.Validate | utils/mongo.py:122-128 | an email is returned only for a token that is present; at most the one found record is removed |
| Mongo.DeleteToken | utils/mongo.py:136 | `delete_one` leaves the collection unchanged for an absent token and removes exactly one document otherwise |
| Mongo.Connect | utils/mongo.py:23-42 | `_init_client` is idempotent once connected; otherwise it connects exactly when the server answers; the collections are untouched |
| Mongo.CreateSessionStep | utils/mongo.py:106-116 | `create_session` does not touch users or feedback |
| Mongo.ValidateStep | utils/mongo.py:118-131 | only the connection attempt, which lies outside the `try`, can make `validate_session` raise; a failing collection call gives None and removes nothing; a working call gives `Validate`'s email and leaves `Validate`'s collection |
| Mongo.DeleteSessionStep | utils/mongo.py:133-140 | `delete_session` touches only the session collection; it raises exactly when the server is unreachable or the call fails, so an absent token is no error; on success the collection is `DeleteToken`'s, on failure unchanged |
| Mongo.CreateUserStep | utils/mongo.py:71-85 | with a working store, it succeeds exactly when the email is new, and a taken email gives "User already exists"; on success the user map gains exactly the user with the hashed password, and the result is its public view; failure leaves the users unchanged; `is_admin` defaults to false |
| Mongo.GetUserStep | utils/mongo.py:87-94 | only the connection attempt raises; otherwise the stored user when the lookup succeeds and the email is present, and None when it is absent or the lookup fails; nothing but the connection changes |
| Mongo.AddFeedbackStep | utils/mongo.py:143-151 | `add_feedback` leaves users and sessions unchanged |
| Mongo.AddEventStep | utils/mongo.py:161-169 | `add_event` leaves users and feedback unchanged |
| Mongo.FindAppendFresh | utils/mongo.py:109-111 | after appending to a collection where the token is fresh, the new document is found exactly when it carries the token |
| Mongo.EventNeverMatches | utils/mongo.py:165 | an event document appended to `session` changes no token lookup |
| Mongo.AppendFreshKeepsDistinct | utils/mongo.py:109-111 | inserting a record under a fresh token keeps tokens unique |
| Mongo.RemoveKeepsDistinct | utils/mongo.py:126 | removing a document keeps tokens unique |
| Mongo.RemoveFoundLeavesFresh | utils/mongo.py:126 | removing the record of a token leaves the token absent |
| Mongo.FindUnique | utils/mongo.py:122 | with unique tokens, the record carrying a token is the one `find_one` returns |
| Mongo.CreateThenValidate | utils/mongo.py:109-113 | a session just created validates to its email at every moment up to and including its expiry, and nothing changes |
| Mongo.CreateSessionThenValidateSession | utils/mongo.py:106-131 | after a successful `create_session`, `validate_session` on the returned token gives the email and leaves the store as it was |
| Mongo.ValidateCharacterised | utils/mongo.py:122-128 | an email is returned exactly when an unexpired record carries the token, and it is that record's email; an expired record is deleted and nothing else is; otherwise nothing changes |
| Mongo.ExpiredIsPurged | utils/mongo.py:125-127 | a record whose expiry is strictly before now gives None and is gone afterwards; tokens stay unique |
| Mongo.DeleteIsIdempotent | utils/mongo.py:133-137 | after deletion the token is absent; deleting again is a no-op; tokens stay unique |
| Mongo.DeleteThenValidate | utils/mongo.py:133-137 | a deleted token no longer validates |
| Mongo.DeleteKeepsOtherSessions | utils/mongo.py:136 | deleting one token leaves how every other token validates unchanged |
| Mongo.EventNeverValidates | utils/mongo.py:165 | an event document in the `session` collection never becomes a valid session |
| Mongo.Store.InitClient | utils/mongo.py:23-42 | the new store state is `Connect` of the old one |
| Mongo.Store.CreateSession | utils/mongo.py:106-116 | keeps tokens unique; on success the token returned is the fresh uuid and exactly one record for the email, expiring `hours` hours after now, is appended; on failure the sessions are unchanged |
| Mongo.Store.ValidateSession | utils/mongo.py:118-131 | keeps tokens unique; result and new state are those of `ValidateStep` |
| Mongo.Store.DeleteSession | utils/mongo.py:133-140 | keeps tokens unique; result and new state are those of `DeleteSessionStep` |
| Mongo.Store.CreateUser | utils/mongo.py:71-85 | result and new state are those of `CreateUserStep` (refusal exactly for a taken email); on success the public view of the stored user is returned, and the stored password is the hash |
| Mongo.Store.GetUserByEmail | utils/mongo.py:87-94 | result and new state are those of `GetUserStep`: the stored user, or None when absent or when the lookup fails |
| Mongo.Store.AddFeedback | utils/mongo.py:143-151 | result and new state are those of `AddFeedbackStep` |
| Mongo.Store.AddEvent | utils/mongo.py:161-169 | keeps tokens unique; result and new state are those of `AddEventStep` |
| Auth.LoginStep | utils/auth.py:17-28 | `login_user` never changes users or feedback, and a returned pair carries a token exactly when it carries no error; characterised by `UnknownUserIsRejected`, `WrongPasswordIsRejected`, `SessionOnlyOnSuccess` and `RegisterThenLogin` |
| Auth.UnknownUserIsRejected | utils/auth.py:19-22 | an unknown email, or a failed lookup call, gives `(None, "User not found")` and no session |
| Auth.WrongPasswordIsRejected | utils/auth.py:23-25 | a known email with a password that does not verify gives `(None, "Invalid password")` and no session |
| Auth.SessionOnlyOnSuccess | utils/auth.py:17-28 | the session collection changes only when the result is `(token, None)`, and then by exactly one 24-hour record under that token; users never change |
| Auth.RegisterThenLogin | utils/auth.py:13-28 | after a successful registration, logging in with the registered password opens a session that validates to the email |
| Auth.RegisterUser | utils/auth.py:13-15 | exactly `create_user` with the same arguments |
| Auth.LoginUser | utils/auth.py:17-28 | result and new state are those of `LoginStep`: existence check, then password check, then session |
| Auth.LogoutToken | utils/auth.py:30-32 | exactly `delete_session` |
| Auth.CurrentUserFromToken | utils/auth.py:34-35 | exactly `validate_session` |
| Api.VerifyGoogleIdToken | api.py:33-42 | success exactly for status 200 with the audience matching whenever a client id is configured; a non-200 status gives 401 "Invalid Google token"; an audience mismatch gives 401 "Invalid token audience"; every rejection of a reply is a 401 |
| Api.Authenticate | api.py:44-50 | `get_current_user` never changes users or feedback, and a user it returns is a non-empty email; characterised by `AuthenticateCharacterised`, `AskWithoutCookie` and `AskWithInvalidSession` |
| Api.AuthenticateCharacterised | api.py:44-50 | with a cookie set, authentication succeeds exactly when `validate_session` returns a non-empty email, which is then the user, and the store is as `validate_session` leaves it |
| Api.HandleLogin | api.py:52-60 | `login` never changes users or feedback, never deletes the cookie, and sets it exactly when it answers successfully; characterised by `LoginCreatesSessionAndEvent` and `RejectedTokenChangesNothing` |
| Api.HandleAsk | api.py:62-75 | `ask_item` never changes users or cookies, and a successful answer is the pipeline's own text; characterised by `AuthFailureStopsEverything`, `RagErrorPersistsNothing` and `PersistenceFailuresAreSwallowed` |
| Api.HandleLogout | api.py:77-86 | `logout` never changes users or feedback, and without a cookie changes nothing; characterised by `LogoutAlwaysSucceeds` and `LogoutTwice` |
| Api.AudienceCheckedOnlyWithClientId | api.py:39 | without a configured client id the audience is never looked at |
| Api.AskWithoutCookie | api.py:44-46 | no cookie gives 401 "Missing session token", the store is untouched, and the pipeline's outcome makes no difference |
| Api.AskWithInvalidSession | api.py:47-49 | a session that does not validate gives 401 "Invalid or expired session", no feedback, and the pipeline's outcome makes no difference |
| Api.AuthFailureStopsEverything | api.py:62-63 | any authentication failure comes before pipeline work: the answer does not depend on the pipeline and the store is exactly as authentication left it, so no feedback or event is written |
| Api.RagErrorPersistsNothing | api.py:65-69 | a pipeline error gives 500 "RAG error" and the store is left as authentication left it |
| Api.PersistenceFailuresAreSwallowed | api.py:70-75 | the answer reaches the client whatever the writes do; feedback holds prompt and answer; a failed feedback write means no event is attempted |
| Api.LogoutAlwaysSucceeds | api.py:77-86 | logout always answers ok and clears the cookie |
| Api.LogoutTwice | api.py:77-86 | logging out twice succeeds both times and the token no longer validates |
| Api.LoginCreatesSessionAndEvent | api.py:52-60 | a successful login sets the cookie to the new token and adds one 24-hour session and one "login" event for the verified email |
| Api.RejectedTokenChangesNothing | api.py:54 | a rejected ID token changes nothing and sets no cookie |
| Api.GetCurrentUser | api.py:44-50 | result and new state are those of `Authenticate` |
| Api.Login | api.py:52-60 | result and new state are those of `HandleLogin` |
| Api.AskItem | api.py:62-75 | result and new state are those of `HandleAsk` |
| Api.Logout | api.py:77-86 | result and new state are those of `HandleLogout` |
| Loader.IsTextFile | rag_pipeline/loader.py:13 | the lowercased name ends with ".txt", ".md" or ".markdown"; characterised by `ExtensionIgnoresCase` and `OtherFilesIgnored` |
| Loader.FolderTexts | rag_pipeline/loader.py:7-21 | the reference definition of the loader's result, which `LoadTextsFromFolder` is proved equal to; characterised by `ReadAllAppend`, `AtMostOneTextPerFile`, `AllReadableAllLoaded`, `UnreadableFileSkipped` and `DirPathsAppend` |
| Loader.NonBlankDocs | rag_pipeline/loader.py:24 | one document per text with a non-blank strip, in order; characterised by `NonBlankDocsAppend`, `NonBlankDocsMembers` and `AllBlankGivesNoDocs` |
| Loader.ChunkTexts | rag_pipeline/loader.py:23-29 | `chunk_texts` splits the non-blank documents with a 1000/200 default; characterised by `BlankTextsDropped` and `AllBlankGivesNoDocs` |
| Loader.LoadTextsFromFolder | rag_pipeline/loader.py:7-21 | the nested loops produce the texts of the readable text files under the folder, in walk order; a non-directory gives [] |
| Loader.LoadDocuments | rag_pipeline/loader.py:31-33 | equals chunking the folder's texts with the same size and overlap |
| Loader.ReadAllAppend | rag_pipeline/loader.py:11-20 | reading two lists of paths appends their texts |
| Loader.AtMostOneTextPerFile | rag_pipeline/loader.py:11-17 | at most one text per matching file |
| Loader.AllReadableAllLoaded | rag_pipeline/loader.py:15-17 | when every file is readable, text i is the contents of file i |
| Loader.UnreadableFileSkipped | rag_pipeline/loader.py:15-20 | an unreadable file is skipped and the files around it are still read |
| Loader.DirPathsAppend | rag_pipeline/loader.py:12-14 | the paths of two runs of file names append |
| Loader.OtherFilesIgnored | rag_pipeline/loader.py:13 | a file without a recognised extension contributes nothing |
| Loader.ExtensionIgnoresCase | rag_pipeline/loader.py:13 | the extension test is case-insensitive: a name is a text file exactly when its lowercase form is; any stem with ".TXT", ".Md" or ".MarkDown" is one, with ".pdf" it is not |
| Loader.NonBlankDocsAppend | rag_pipeline/loader.py:24 | the blank filter distributes over concatenation |
| Loader.NonBlankDocsMembers | rag_pipeline/loader.py:24 | exactly the non-blank texts become documents |
| Loader.BlankTextsDropped | rag_pipeline/loader.py:23-29 | removing a blank text does not change the chunks |
| Loader.AllBlankGivesNoDocs | rag_pipeline/loader.py:24 | only blank texts hand no documents to the splitter |
| Retriever.RetrieveContext | rag_pipeline/retriever.py:4-10 | `retrieve_context` joins the hits' truthy contents with "\n\n"; characterised by `AsksForTopK`, `EmptyContextIffNoContent`, `ContextAppend`, `EmptyHitOmitted` and `SmallContexts` |
| Retriever.Contents | rag_pipeline/retriever.py:10 | the kept contents are non-empty and no more than the hits |
| Retriever.ContentsAppend | rag_pipeline/retriever.py:10 | contents of concatenated hits are appended |
| Retriever.ContentsInRankOrder | rag_pipeline/retriever.py:10 | when every hit has content, content i is hit i's |
| Retriever.EmptyContextIffNoContent | rag_pipeline/retriever.py:10 | the context is "" exactly when no hit has content, so no hits give "" |
| Retriever.ContextAppend | rag_pipeline/retriever.py:10 | two hit lists' contexts are joined by one "\n\n", unless one is empty |
| Retriever.EmptyHitOmitted | rag_pipeline/retriever.py:10 | a hit with missing or empty content is omitted |
| Retriever.SmallContexts | rag_pipeline/retriever.py:10 | one hit gives its content; two give them joined by "\n\n"; empty hits vanish |
| Retriever.AsksForTopK | rag_pipeline/retriever.py:4-9 | without an explicit `top_k` the search is asked for the 3 best hits of the query |
| Embedder.Init | rag_pipeline/embedder.py:24-39 | the constructor's provider choice; characterised by `InitSelectsProvider` and `DefaultRegion` |
| Embedder.Downgrade | rag_pipeline/embedder.py:46-48 | after a Vertex failure, HuggingFace is selected; characterised by `DocumentsFallBack` and `DowngradeIsPermanent` |
| Embedder.EmbedDocumentsStep | rag_pipeline/embedder.py:41-50 | `embed_documents` on the provider fields; characterised by `VertexDocumentsWhileHealthy`, `DocumentsFallBack`, `HuggingFaceIgnoresVertex` and `ReplayKeepsValid` |
| Embedder.EmbedQueryStep | rag_pipeline/embedder.py:52-61 | `embed_query` on the provider fields; characterised by `QueryAlwaysUsesHuggingFace` and `DowngradeIsPermanent` |
| Embedder.VertexEmbedDocuments | rag_pipeline/embedder.py:15-17 | one embedding per input, in input order, of its `page_content` when present; it fails exactly when some call fails |
| Embedder.InitSelectsProvider | rag_pipeline/embedder.py:24-39 | Vertex is selected exactly when the project id is given and Vertex starts, and then `hf` is None; otherwise HuggingFace is set |
| Embedder.DefaultRegion | rag_pipeline/embedder.py:31 | the Vertex region defaults to us-central1 |
| Embedder.VertexDocumentsWhileHealthy | rag_pipeline/embedder.py:41-44 | with Vertex selected and working, the result is the Vertex vectors and the state is unchanged |
| Embedder.DocumentsFallBack | rag_pipeline/embedder.py:41-50 | a Vertex failure switches to HuggingFace and returns its result |
| Embedder.QueryAlwaysUsesHuggingFace | rag_pipeline/embedder.py:52-61 | `embed_query` always answers with HuggingFace and leaves Vertex deselected, since the Vertex query path always raises |
| Embedder.HuggingFaceIgnoresVertex | rag_pipeline/embedder.py:41-50 | once on HuggingFace, Vertex is never called |
| Embedder.ReplayKeepsValid | rag_pipeline/embedder.py:41-61 | every series of calls keeps the flag backed by its client |
| Embedder.DowngradeIsPermanent | rag_pipeline/embedder.py:34-61 | no series of calls sets `use_vertex` back to True |
| Embedder.VertexOrHFEmbeddings.constructor | rag_pipeline/embedder.py:24-39 | the state is `Init(cfg, vertexInitOk)` |
| Embedder.VertexOrHFEmbeddings.EmbedDocuments | rag_pipeline/embedder.py:41-50 | result and new fields are those of `EmbedDocumentsStep`; a downgrade is never undone |
| Embedder.VertexOrHFEmbeddings.EmbedQuery | rag_pipeline/embedder.py:52-61 | result and new fields are those of `EmbedQueryStep`; afterwards Vertex is deselected |
| Embedder.VertexOrHFEmbeddings.Call | rag_pipeline/embedder.py:64-65 | exactly `embed_query` |
| Responder.GetResponse | core/responder.py:23-48 | `get_response`; characterised by `BlankPromptAsksForQuestion`, `InquiryComesFirst`, `InquiryFallsThroughToHabit`, `HabitReturnsFirstHabitChapter`, `FallbackWhenNothingMatches`, `ReplyIsKnown` and `NoBookGivesFallback` |
| Responder.FirstTitled | core/responder.py:36-38 | the first chapter whose lowercased title contains the keyword, or none exactly when no chapter's does |
| Responder.FirstTitledIs | core/responder.py:36-38 | the first mentioning chapter is the one found |
| Responder.BlankPromptAsksForQuestion | core/responder.py:26-28 | a blank prompt gets "Please enter a question." |
| Responder.InquiryComesFirst | core/responder.py:34-39 | an inquiry or universal keyword returns the first chapter titled with "inquiry", whatever else the prompt says |
| Responder.InquiryFallsThroughToHabit | core/responder.py:34-45 | with an inquiry keyword but no inquiry chapter, the habit branch still runs |
| Responder.HabitReturnsFirstHabitChapter | core/responder.py:40-45 | "habit" returns the first chapter titled with "habit" |
| Responder.FallbackWhenNothingMatches | core/responder.py:34-48 | when nothing matches, the beta-demo fallback; otherwise a matched chapter's content |
| Responder.ReplyIsKnown | core/responder.py:23-48 | every reply is a fixed message or some chapter's content |
| Responder.MissingContentIsEmpty | core/responder.py:34-45 | for any chapter list, a habit prompt whose first habit-titled chapter has no content gets "", when no inquiry-titled chapter answers first |
| Responder.NoBookGivesFallback | core/responder.py:47-48 | with no chapters every non-blank prompt gets the fallback |
| Secrets.GetSecret | utils/secrets.py:20-56 | `get_secret`; characterised by `ResolutionOrder` against the reference `FirstSome` and by `NotFoundIffNoSource` and the per-source lemmas |
| Secrets.GetBlobServiceClient | utils/secrets.py:58-72 | `get_blob_service_client`; characterised by `BlobSelectionOrder` |
| Secrets.FirstSome | utils/secrets.py:27-56 | the first answering source, or none exactly when none answers |
| Secrets.ResolutionOrder | utils/secrets.py:20-56 | Key Vault, then Secret Manager, then the environment, then the "not found" error |
| Secrets.ExplicitVaultUrlWins | utils/secrets.py:29 | an explicit non-empty `vault_url` is the one consulted |
| Secrets.AzureOnlyWhenConfigured | utils/secrets.py:28-30 | without the Azure libraries or a vault URL, Key Vault is never consulted |
| Secrets.AzureFailureFallsThrough | utils/secrets.py:36-37 | a failing Key Vault lookup falls through silently |
| Secrets.GcpOnlyWithProject | utils/secrets.py:40-44 | Secret Manager is used only with a non-empty `GCP_PROJECT` |
| Secrets.GcpUsesLatestVersion | utils/secrets.py:44-47 | Secret Manager is asked for the latest version in the project |
| Secrets.EnvironmentIsLast | utils/secrets.py:52-56 | the environment variable is the last source, and an empty value still counts |
| Secrets.NotFoundIffNoSource | utils/secrets.py:56 | the error is raised exactly when no source has the secret |
| Secrets.BlobSelectionOrder | utils/secrets.py:58-72 | connection string before account URL; an error without Azure or without both |
| Feedback.FeedbackMetadata | feedback.py:13-15 | the rating is set under "rating" when given; every other key, and its value, comes from `extra` |
| Feedback.EmptyExtraIsNoExtra | feedback.py:13 | a falsy `extra` behaves like none |
| Feedback.RatingOverridesExtra | feedback.py:14-15 | the rating replaces one already in `extra` |
| Feedback.CollectFeedback | feedback.py:10-26 | the store gets the metadata feedback, or on `TypeError` the retry without metadata; a non-empty `extra` is updated in place; nothing escapes |
| Feedback.RetryStoresWithoutMetadata | feedback.py:18-22 | the retry stores an empty metadata mapping |
| Rag.Prompt | rag_pipeline/__init__.py:57 | the prompt sent to the model; characterised by `PromptShape` |
| Rag.ChooseIndex | rag_pipeline/__init__.py:44-53 | load an existing index, rebuild when loading raises, build a missing one; characterised by `ExistingIndexLoaded`, `OtherwiseIndexBuilt` and `FailsOnlyWhenBuildFails` |
| Rag.AskSpec | rag_pipeline/__init__.py:21-66 | the branch-by-branch reference for `ask_with_rag`, which `AskWithRag` is proved equal to; characterised by the `Rag` message, index and answer lemmas |
| Rag.IndexExists | rag_pipeline/__init__.py:11-18 | true exactly when the path is a directory listing a file ending in ".faiss" |
| Rag.Answer | rag_pipeline/__init__.py:60-66 | a model failure gives the fixed notice followed by the context; a non-blank text is returned stripped; a blank or missing text gives the context |
| Rag.AskWithRag | rag_pipeline/__init__.py:21-66 | answer and whether the index was built are those of `AskSpec`, the branch-by-branch description |
| Rag.NoTextsMessage | rag_pipeline/__init__.py:36-38 | no texts give the no-knowledge-base message and the index is not touched |
| Rag.MissingFolderMessage | rag_pipeline/__init__.py:36-38 | a folder that is not a directory gives the no-knowledge-base message |
| Rag.BlankTextsMessage | rag_pipeline/__init__.py:40-42 | all-blank texts give the empty-knowledge-base message when the splitter gives no chunks for no documents |
| Rag.FixedMessagesInOrder | rag_pipeline/__init__.py:36-42 | the two fixed messages come first, in order, and no index is built with them |
| Rag.ExistingIndexLoaded | rag_pipeline/__init__.py:46-48 | an existing index that loads is used and nothing is built |
| Rag.OtherwiseIndexBuilt | rag_pipeline/__init__.py:46-53 | a missing or unloadable index is built from the chunks at the same path |
| Rag.FailsOnlyWhenBuildFails | rag_pipeline/__init__.py:44-53 | the call raises exactly when there are chunks, the index must be built and building raises |
| Rag.ModelSeesContextAndQuery | rag_pipeline/__init__.py:56-63 | the model gets the prompt built from the retrieved context and the query, and the answer follows its reply |
| Rag.PromptShape | rag_pipeline/__init__.py:57 | the prompt starts with the context, which is followed directly by "\n\nUser Query: ", and ends with the query and "\nAnswer:" |
| Rag.ModelFailureGivesContext | rag_pipeline/__init__.py:64-66 | a model failure gives the notice followed by the context, never "" |
| Rag.BlankModelTextGivesContext | rag_pipeline/__init__.py:63 | a blank or missing model text falls back to the context |
| Rag.ModelTextIsStripped | rag_pipeline/__init__.py:63 | a non-blank model text is returned stripped: the answer is the text with its blank prefix and suffix cut off |

## Left out

- I/O and logging: every `logger` call and `print`, and the FastAPI, CORS and dependency plumbing.
- `hash_password`, `verify_password`, `check_connection`, `list_users` and `get_feedback` (utils/mongo.py) are not modelled. They support the core but are not part of it. Password checking is the `Verifier` oracle.
- The `_id` field that `insert_one` adds to the user mapping `create_user` returns is not modelled.
- `create_session` reads `utcnow()` twice (for the expiry and for `created_at`); the model uses one clock value for both. `add_event` stores its timestamp as an ISO-format string; the model stores the clock value itself.
- Text.Lower: only ASCII letters are lowercased; Python's full Unicode case mapping is not modelled.
- Api.VerifyGoogleIdToken: a token-info reply without an "email" field (which gives `email = None` in the source) is not modelled; the reply always carries one.
- Rag.IndexExists: `os.listdir` raising on a directory that cannot be listed is not modelled; a directory's listing is always given.
- Api.VerifyGoogleIdToken: `r.json()` raising on a 200 reply that is not JSON is not modelled; a 200 reply always carries the token-info fields.
- A HuggingFace client that fails to start, and an exception from the similarity search or the splitter, are not modelled; those oracles always answer.
- Loader.FileSystem: a directory that `os.walk` cannot list part-way, and a symlink loop, are not modelled; the walk is a given sequence.
- Rag.Config and Embedder.Config: the pipeline's `cfg` is split into the settings each reader uses (the `vector_store` section for the index path; `project_id` and `location` for Vertex); settings of other shapes are not modelled.
- Rag.AskWithRag: the index itself, the embedding vectors and the generated text are opaque; only the branch structure and the strings built from them are modelled. The module-level `embed_documents` and `load_faiss_index` of rag_pipeline/embedder.py appear only as the build and load oracles.
- Api.AskItem: takes the pipeline's outcome as a parameter rather than calling `Rag.AskWithRag`, since the pipeline shares no state with the store.
- `BOOK` in core/responder.py: the YAML load at import time is a parameter (the chapter list). A chapter whose title is present but null (where `.lower()` raises) is not modelled. Nor is one whose content is present but null: `ch.get("content", "")` then returns None, where `ContentOf` gives "". A book file that loads without raising but is not a mapping (an empty file gives None; a list or a string is possible too) is not modelled either. The `{"chapters": []}` fallback is then never taken, and `BOOK.get` raises for every non-blank prompt that mentions a keyword. The model always has a chapter list.
- Secrets.GetSecret / Secrets.GetBlobServiceClient: the model assumes annotations are evaluated lazily (Python 3.14 and later). On earlier Pythons the return annotation `-> BlobServiceClient` of `get_blob_service_client` is evaluated when the module is imported, so a missing Azure package makes the import itself fail with NameError. The `_have_azure = False` cases of these members, and the "azure-storage-blob not installed" error, then never occur.
- Feedback.CollectFeedback: `rating` is an integer, so `int(rating)` is the identity. A `TypeError` is modelled as raised by the first `add_feedback` call before it touches the store.
- The JSX front end, admin_dashboard.py, rag_pipeline/vector_store.py, rag_pipeline/test_vertex_embedding.py and utils/session_logger.py are not part of this model: UI, pickle I/O, a network smoke test and a logging wrapper.
