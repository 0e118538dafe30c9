# Hermes job-application core, modelled in Dafny

Hermes finds job postings on the Lever board and helps apply to them. It has three
parts:

- A browser extension. It walks Google result pages, collects the Lever links on them
  and sends them to a local server. On an application page it fetches the stored
  actions and replays them into the form.
- A Python back end. It stores the postings in SQLite. It asks a language model for a
  posting's details and for an answer to each form question, and saves those answers
  as replayable actions.
- Operator scripts. They run the same pipeline by hand and review the results
  interactively.

This project models that core and proves properties of the model:

- URL cleaning, and the Lever URL check.
- The selector compiler and the question extraction of the Lever browser.
- The browser's life cycle.
- The schemas of the model's answers and of the server's requests.
- The SQLite tables and their updates.
- The processing pipeline.
- The three HTTP routes.
- The DOM actions of the extension.
- Its content script.
- Its background worker.
- The two operator scripts.

Each source file becomes one module, plus a companion `...Lemmas` module that proves
its properties:

| module | source |
|---|---|
| `Urls` | `src/processors/utils.py`, and the URL handling of `src/processors/lever.py` and `src/web/api.py` |
| `Selectors` | the pure part of `src/web/lever.py` |
| `Browser` | the `LeverBrowser` class of `src/web/lever.py` |
| `Schemas` | `src/models/*.py` and the request models of `src/web/api.py` |
| `Store` | `src/db/model.py` |
| `Pipeline` | `src/processors/lever.py` |
| `Api` | `src/web/api.py` |
| `DomActions` | `extensions/actions.js` |
| `ContentScript` | `extensions/content.js` |
| `Background` | `extensions/background.js` |
| `Operator` | `snippets/lever_processor_v1.py` |
| `Analysis` | `snippets/analysis.py` |

`Wrappers` and `Strings` hold helpers:

- `Option`;
- `Result`, whose `Fault` names the exception the source raises;
- Python's and JavaScript's string operations: Python's `strip` and `split` use
  Python's Unicode whitespace, JavaScript's `trim` its own; `lower` is ASCII-only.

Code that works on objects in place is modelled as classes with `modifies` clauses:

- the browser;
- the processor;
- the DOM;
- the content script's page state;
- the background worker;
- the operator scripts.

Each of their methods is proved against a function of the old state. Pure code is
modelled as functions.

The language model, the network, the browser engine and standard input are not part
of the model. Each enters as a parameter:

- an oracle function;
- a list of outcomes;
- a list of input lines.

Where the code and its design notes disagree, the model follows the code:

- `is_agent_processed` is never set by the question processor of
  `snippets/lever_processor_v1.py`: the method it calls does not exist
  (`OperatorLemmas.QuestionRunAsWritten`).
- `generate_action` is called with four arguments, but it takes two besides `self`
  (`PipelineLemmas.AnsweredAsWritten`, `PipelineLemmas.JobStepAsWrittenAddsNoActions`).
- The `processJobPage` message carries no actions, so the content script's replay
  rejects (`ContentScript.OnProcessJobPage`).
- `has_error` is written without a commit (`PipelineLemmas.JobStepNeverMarks`).

Each of these is modelled as written. The models of the intended behaviour take the
missing piece as a parameter: the answer stream of `Operator.QuestionProcessor.Process`,
the agent call of `Pipeline.LeverProcessor.AnswerAll`, and the `jobActions` of `ContentScript.OnProcessJobPage`.

One more discrepancy is not modelled as written: `src/processors/lever.py` imports
`InstalledExtensions` from `src/db/model.py`, which does not declare it, so importing
the processor raises `ImportError` and no `LeverProcessor` can be built. The model
assumes an installations table holding the three columns the processor reads
(`Store.Db.installations`).

## Model

| member | source | states |
|---|---|---|
| Urls.SchemeEnd | src/processors/utils.py:7 | the scheme `urlsplit` recognises ends at the first `:`, starts with an ASCII letter and holds only scheme characters |
| Urls.NetlocEnd | src/processors/utils.py:7 | the netloc ends at the first `/`, `?` or `#` after the `//`, or at the end of the text |
| Urls.SplitAtFirst | src/processors/utils.py:7 | the text is cut at the first occurrence of the delimiter; with no delimiter it is all kept on the left |
| Urls.SplitAuthority | src/processors/utils.py:7 | the netloc is read only after a leading `//`, and `//` + netloc + rest rebuilds the text |
| UrlLemmas.SchemeEndExtend | src/processors/utils.py:7 | appending a query or fragment to a text cannot create a scheme |
| Urls.UrlSplit | src/processors/utils.py:7 | no contract of its own: `urlsplit`, whose component shapes are `UrlLemmas.UrlSplitShape` and whose inverse on canonical components is `UrlLemmas.SplitUnsplit` |
| UrlLemmas.SplitSchemeShape | src/processors/utils.py:7 | the scheme `urlsplit` reports is lower-case and well formed; with none, the whole text is left |
| UrlLemmas.PathQueryShape | src/processors/utils.py:7 | the path is the longest prefix free of `?` and `#`, and the query holds no `#` |
| UrlLemmas.AuthorityShape | src/processors/utils.py:7 | the netloc holds no delimiter, and what follows it starts with `/`, `?` or `#`, or is empty |
| UrlLemmas.UrlSplitPathShape | src/processors/utils.py:7 | a split path holds no `?` or `#`, and a split query no `#` |
| UrlLemmas.UrlSplitNetlocShape | src/processors/utils.py:7 | a split netloc holds no delimiter, and after a netloc the path is empty or absolute |
| UrlLemmas.UrlSplitNoScheme | src/processors/utils.py:7 | with neither scheme nor netloc, the path cannot be read as holding a scheme |
| UrlLemmas.UrlSplitShape | src/processors/utils.py:7 | every successful split has all of the shapes above |
| UrlLemmas.SchemeRoundTrip | src/processors/utils.py:7-8 | a written scheme followed by `:` is read back as that scheme, with the rest kept |
| UrlLemmas.AuthorityRoundTrip | src/processors/utils.py:7-8 | `//` + netloc + rest is read back as that netloc and that rest |
| Urls.UrlUnsplit | src/processors/utils.py:8 | no contract of its own: `urlunsplit`, whose text is `UrlLemmas.UnsplitText` and which `UrlLemmas.SplitUnsplit` inverts |
| UrlLemmas.UnsplitText | src/processors/utils.py:8 | `urlunsplit` with an empty query writes the scheme and `:`, then the authority and path, then `#` and the fragment |
| UrlLemmas.UnsplitScheme | src/processors/utils.py:7-8 | splitting written canonical components gives back their scheme |
| UrlLemmas.UnsplitAuthority | src/processors/utils.py:7-8 | splitting written canonical components gives back their netloc |
| UrlLemmas.UnsplitFragment | src/processors/utils.py:7-8 | splitting written canonical components gives back their path and fragment, with an empty query |
| UrlLemmas.SplitUnsplit | src/processors/utils.py:7-8 | round trip: `urlsplit(urlunsplit(c)) == c` for canonical components |
| UrlLemmas.NormalizeKeepsText | src/processors/utils.py:8 | the slash `urlunsplit` puts before a relative path after an authority does not change the text it writes |
| UrlLemmas.NormalizeCanonical | src/processors/utils.py:7-8 | a split result with an empty query becomes canonical once that slash is made explicit |
| UrlLemmas.HierNoMarks | src/processors/utils.py:8 | the part written before the query holds no `?` or `#` |
| UrlLemmas.SchemeNoMarks | src/processors/utils.py:7 | a scheme holds no delimiter |
| UrlLemmas.NoQueryMarkOf | src/processors/utils.py:8 | a text free of `?` and `#`, followed by a fragment, has no `?` before its `#` |
| UrlLemmas.CleanUrlHasNoQuery | src/processors/utils.py:4-8 | a cleaned URL has no `?` before its first `#`, so it carries no query |
| Urls.CleanUrl | src/processors/utils.py:4-8 | no contract of its own: `clean_url`, whose promises are `UrlLemmas.CleanUrlKeepsComponents`, `UrlLemmas.CleanUrlHasNoQuery` and `UrlLemmas.CleanUrlIdempotent` |
| UrlLemmas.CleanUrlKeepsComponents | src/processors/utils.py:4-8 | cleaning keeps the scheme, netloc and fragment, empties the query, and keeps the path up to a leading `/` |
| UrlLemmas.CleanUrlIdempotent | src/processors/utils.py:4-8 | cleaning twice is cleaning once, for every URL except one with an empty authority and a path that starts with `//` |
| UrlLemmas.CleanUrlFixesCanonical | src/processors/utils.py:4-8 | a URL written from canonical components is its own cleaning |
| UrlLemmas.PlainUnsplit | src/processors/utils.py:8 | the text written for scheme, netloc, absolute path and fragment is `scheme://netloc/path#fragment` |
| UrlLemmas.CleanUrlKeepsPlainUrl | src/processors/utils.py:4-8 | a plain `scheme://netloc/path#fragment` URL without a query is returned unchanged |
| UrlLemmas.CleanUrlEmptyAuthority | src/processors/utils.py:4-8 | two slashes before a path that starts with `/` read as an empty authority, and cleaning drops them |
| UrlLemmas.CleanUrlAuthorityOnly | src/processors/utils.py:4-8 | `//` followed by a plain authority is its own cleaning |
| UrlLemmas.CleanUrlNotIdempotent | src/processors/utils.py:4-8 | for any plain name `x`, `//////x` cleans to `////x`, which cleans to `//x`, which stays: the exception to idempotence happens |
| Urls.LastIndex | src/processors/lever.py:71 | the index of the last occurrence of the character, where `urlparse` splits off the params |
| Urls.ValidateLeverUrl | src/processors/lever.py:69-79 | no contract of its own: `_validate_lever_url`, whose meaning is `UrlLemmas.ValidateLeverUrlMeaning` |
| UrlLemmas.ValidateLeverUrlMeaning | src/processors/lever.py:69-79 | a URL passes exactly when it splits, its scheme is `https`, its netloc contains `lever.co` and its stripped path has two parts; a URL that cannot be split fails |
| UrlLemmas.SplitPlainUrl | src/processors/lever.py:71 | `urlsplit` of `scheme://netloc/path` gives exactly those components |
| UrlLemmas.LeverSplit | src/processors/lever.py:71 | how a `jobs.lever.co` URL splits |
| UrlLemmas.StripPostingPath | src/processors/lever.py:72 | stripping the outer slashes of `/company/id` gives `company/id` |
| UrlLemmas.StripCompanyPath | src/processors/lever.py:72 | stripping the outer slashes of `/company/` gives `company` |
| UrlLemmas.ParsedPathWithoutParams | src/processors/lever.py:71 | without a `;`, the path `urlparse` reports is the one `urlsplit` found |
| UrlLemmas.LeverHost | src/processors/lever.py:75 | `jobs.lever.co` contains `lever.co` |
| UrlLemmas.LeverPostingSplit | src/processors/lever.py:71 | how `https://jobs.lever.co/company/id` splits |
| UrlLemmas.ValidateLeverUrlPosting | src/processors/lever.py:69-77 | every posting page `https://jobs.lever.co/<company>/<id>` passes the check |
| UrlLemmas.ValidateLeverUrlCompanyPage | src/processors/lever.py:69-77 | a company page `https://jobs.lever.co/<company>/` fails: it has only one path part |
| UrlLemmas.ValidateLeverUrlPlainHttp | src/processors/lever.py:73-74 | any `http` URL on `jobs.lever.co` fails the check |
| Urls.ApplyLink | src/processors/lever.py:47-49 | no contract of its own: the apply page of a posting, whose promises are `UrlLemmas.ApplyLinkStrips` and `UrlLemmas.ApplyLinkHasNoQuery` |
| UrlLemmas.ApplyLinkStrips | src/processors/lever.py:47-49 | the apply link exists exactly when the link can be cleaned, ends with `/apply`, and names the same page as the cleaned link |
| UrlLemmas.ApplyLinkHasNoQuery | src/processors/lever.py:47-49 | the apply link carries no query |
| UrlLemmas.StripApplySuffixInverse | src/web/api.py:55-56 | removing `/apply` and putting it back restores a link that ended with it; any other link is left unchanged |
| Selectors.ClassPart | src/web/lever.py:138-139 | the class part of a selector always starts with `.` |
| Selectors.BuildSelector | src/web/lever.py:123-142 | a raw `selector` wins; no selector comes back exactly when none of `selector`, `tag`, `id` and `class` is present and non-empty; otherwise tag, `#id` and class are joined in that order |
| Selectors.Markup | src/web/lever.py:200-209 | the markup of each element, one string per element, in order |
| SelectorLemmas.JoinWithoutSeparator | src/web/lever.py:142 | `"".join(parts)` is the parts one after another |
| SelectorLemmas.ConcatAppend | src/web/lever.py:142 | joining two lists of parts is joining each and concatenating |
| SelectorLemmas.ConcatSingle | src/web/lever.py:142 | joining no part gives the empty text, and joining one part gives that part |
| SelectorLemmas.DotJoin | src/web/lever.py:139 | `"." + ".".join(tokens)` writes `.token` for each token |
| SelectorLemmas.BuildSelectorRender | src/web/lever.py:132-142 | with no raw selector and a plain class value, the built selector is the compound selector the identifier denotes: tag, then `#id`, then `.token` per class token |
| SelectorLemmas.BuildSelectorVerbatimClass | src/web/lever.py:138-139 | a class value that starts with `.` once stripped is written verbatim, inner spaces included, after the tag and the `#id` |
| SelectorLemmas.ClassPartBlank | src/web/lever.py:138-139 | a class value of blanks compiles to a bare `.` |
| SelectorLemmas.SingleToken | src/web/lever.py:138-139 | a single token without blanks is its own strip and its own list of words |
| SelectorLemmas.NotDotted | src/web/lever.py:139 | a token whose first character is not `.` does not start with `.` |
| SelectorLemmas.IdSelector | src/web/lever.py:135-136 | an identifier holding only an id compiles to `#id` |
| SelectorLemmas.TagClassCompound | src/web/lever.py:133-140 | a tag with one class token denotes the compound selector of that tag and class |
| SelectorLemmas.TagClassSelector | src/web/lever.py:133-142 | a tag with one class token compiles to `tag.token` |
| SelectorLemmas.ClassCompound | src/web/lever.py:137-140 | one class token denotes the compound selector of that class |
| SelectorLemmas.ClassSelector | src/web/lever.py:137-142 | one class token compiles to `.token` |
| SelectorLemmas.BrowserIdentifiersSimple | src/web/lever.py:156-159 | the question identifier denotes `li.application-question`, and the additional-information identifier denotes `.application-additional` |
| SelectorLemmas.SelectMembers | src/web/lever.py:198-208 | `select` keeps exactly the matching elements |
| SelectorLemmas.SelectAppend | src/web/lever.py:198-208 | `select` keeps document order |
| SelectorLemmas.WithoutResumeMembers | src/web/lever.py:199-203 | the filter keeps exactly the elements without the `resume` class |
| SelectorLemmas.WithoutResumeAppend | src/web/lever.py:199-203 | the filter keeps order |
| SelectorLemmas.MarkupMembers | src/web/lever.py:200-209 | a string is in the markup list exactly when some element has that markup |
| Selectors.QuestionsHtml | src/web/lever.py:189-212 | no contract of its own: the question fragments, whose promises are `SelectorLemmas.QuestionsHtmlMembers`, `SelectorLemmas.QuestionsHtmlKeepsDuplicates` and `SelectorLemmas.QuestionsHtmlDropsResume` |
| SelectorLemmas.QuestionsHtmlMembers | src/web/lever.py:189-212 | a fragment is returned exactly when some element carries it and is either a question without the `resume` class or additional information |
| SelectorLemmas.QuestionsHtmlKeepsDuplicates | src/web/lever.py:196-210 | there is no de-duplication: an element that is both a question and additional information is returned twice |
| SelectorLemmas.QuestionsHtmlDropsResume | src/web/lever.py:202 | a resume question is dropped unless it is also additional information |
| Browser.FormHtml | src/web/lever.py:170-184 | the form markup is returned exactly when the container was found; a timeout gives `NavigationTimeout`, and a missing container gives `RuntimeError` |
| Browser.Reached | src/web/lever.py:59-62 | the loop reaches every question before the first record that lacks one of its three keys, and stops there |
| Browser.FailedAmongMembers | src/web/lever.py:63-68 | a question is reported failed exactly when the loop reached it and its snippet raised |
| Browser.FailedAmongOrdered | src/web/lever.py:59-68 | failures are reported in question order, each once |
| Browser.ReachedAll | src/web/lever.py:59-62 | every question is reached exactly when every record has all three keys |
| Browser.LeverBrowser.constructor | src/web/lever.py:146-150 | a new browser object holds no process and no page, and keeps its link, its headless flag and its debug flag |
| Browser.LeverBrowser.CreateBrowser | src/web/lever.py:32-38 | a successful launch makes a fresh process the one in use, replacing any earlier one without closing it; a failed launch changes nothing |
| Browser.LeverBrowser.CloseBrowser | src/web/lever.py:40-43 | the process in use is closed and forgotten; without one, nothing happens |
| Browser.LeverBrowser.NewPage | src/web/lever.py:45-51 | without a browser: `ValueError`, and no page opened; otherwise a page opens on it, and a navigation timeout leaves that page open |
| Browser.LeverBrowser.OpenAndGetFormHtml | src/web/lever.py:161-187 | returns the container's markup or the matching error; a browser this call launched is closed on every exit, and one already in use stays |
| Browser.LeverBrowser.AutoApply | src/web/lever.py:53-75 | runs the snippets of the reached questions in order, reports those that raised, and stops at a record with a missing key (`KeyError`) or a missing résumé input (`AttributeError`); every exception is caught |
| Schemas.ParseKind | src/web/api.py:21 | a kind read from a string is the kind that string names |
| Schemas.KindRoundTrip | src/web/api.py:21 | every action kind is read back from its own name |
| Schemas.ParseAgentAction | src/models/agents.py:54-67 | a validated agent action has an action of `type`, `click` or `select`, and two string fields taken verbatim; its value is None exactly when the key is absent or `null`; a non-object is rejected |
| Schemas.ParseJobDetails | src/models/agents.py:31-51 | the title is a required string; `location` may also be `null`; `company`, `salary` and `description` may be absent but not `null` |
| Schemas.ParseSearchQuery | src/models/agents.py:6-25 | a validated query has the site `lever`, and its four other fields are taken verbatim |
| Schemas.ParseAction | src/web/api.py:20-23 | a validated extension action has one of the four kinds, and both strings are required keys that may be `null` |
| SchemaLemmas.AgentActionRoundTrip | src/models/agents.py:54-67 | a dumped agent action validates back to itself |
| SchemaLemmas.AgentActionDumpAgrees | src/models/agents.py:54-67 | a validated agent action dumps to exactly the fields it was read from |
| SchemaLemmas.AgentActionAccepts | src/models/agents.py:57-67 | validation accepts an object exactly when its four declared keys are well typed |
| SchemaLemmas.AgentActionIgnoresExtraKeys | src/models/agents.py:54-67 | keys the record does not declare do not change the result |
| SchemaLemmas.JobDetailsRoundTrip | src/models/agents.py:31-51 | a job-details record with every field set validates back to itself |
| SchemaLemmas.JobDetailsDefaultNotRevalidated | src/models/agents.py:40-51 | a record that kept the None default of `company`, `salary` or `description` does not validate from its own dump |
| SchemaLemmas.JobDetailsTitleOnly | src/models/agents.py:32-51 | an object with just a title string validates, and every other field is None |
| SchemaLemmas.SearchQueryRoundTrip | src/models/agents.py:6-25 | a search query validates back to itself from its dump |
| SchemaLemmas.SearchQueryOnlyLever | src/models/agents.py:21 | any site other than `lever` is rejected |
| SchemaLemmas.ActionRoundTrip | src/web/api.py:20-23 | an extension action validates back to itself from its JSON dump, whatever its kind |
| SchemaLemmas.ActionValueRequired | src/web/api.py:23 | an action without the `value` key is rejected: `Optional` without a default is still required |
| Store.MaxPostingId | src/db/model.py:25 | every posting id is at most the largest one, which is where the next rowid comes from |
| Store.MaxActionId | src/db/model.py:61 | every action id is at most the largest one |
| Store.InsertPosting | src/db/model.py:22-40 | inserting a link that is already stored violates the unique constraint on `link`; otherwise a new row is appended with the next rowid |
| Store.ActionRowsFor | src/processors/lever.py:111-122 | a batch insert adds one action row per question |
| Store.Apply | src/processors/lever.py:102 | an assignment never changes a row's id, link or installation |
| Store.ApplyAll | src/processors/lever.py:102 | the assignments of one update never change a row's id, link or installation |
| Store.UpdatePosting | src/processors/lever.py:102 | an update by id gives exactly the rows with that id its assignments, leaves every other row as it was, and updates nothing when the id is missing |
| Store.Where | src/processors/lever.py:132-139 | a filtered query returns only stored rows that the filter accepts |
| Store.ActionsOf | src/web/api.py:68-72 | the actions of a posting are stored rows that belong to it |
| Store.QuestionsOf | snippets/lever_processor_v1.py:123-141 | the questions of a posting are stored rows that belong to it |
| StoreLemmas.QuestionsOfMembers | snippets/lever_processor_v1.py:125-128 | a question row is returned exactly when it is stored and belongs to the posting, as `.all()` returns every such row |
| StoreLemmas.InsertPostingDefaults | src/db/model.py:34-40 | a new row has its link, title and installation, all five flags false, and every nullable column NULL |
| StoreLemmas.InsertPostingValid | src/db/model.py:25-26 | inserting keeps ids distinct and links unique |
| StoreLemmas.UpdateValid | src/db/model.py:25-26 | an update keeps ids distinct and links unique |
| StoreLemmas.UpdateFrame | src/processors/lever.py:102 | an update leaves the other rows and the other tables as they were |
| StoreLemmas.ApplyAllAppend | src/processors/lever.py:102 | the assignments of an update apply in order |
| StoreLemmas.ApplyAllKeepsMarks | src/processors/lever.py:99-102 | assignments that write neither `has_error` nor `is_agent_processed` leave both flags as they were |
| StoreLemmas.UpdateKeepsMarks | src/processors/lever.py:99-102 | such an update leaves both flags of every row as they were |
| StoreLemmas.WhereMembers | src/processors/lever.py:132-139 | a filtered query returns exactly the stored rows that the filter accepts |
| StoreLemmas.WhereAppend | src/processors/lever.py:132-139 | a filtered query keeps table order |
| StoreLemmas.ActionRowsForRows | src/processors/lever.py:111-121 | row k of a batch holds question k's markup, text, answer, kind and selector, under consecutive ids |
| StoreLemmas.AppendActionsValid | src/db/model.py:61 | appending a batch keeps action ids distinct |
| StoreLemmas.LowerCons | src/web/api.py:62 | `LIKE` compares characters one at a time, ignoring ASCII case |
| StoreLemmas.LowerSlice | src/web/api.py:62 | lower-casing a slice is slicing the lower-cased text |
| StoreLemmas.LikeAnything | src/web/api.py:62 | `%` alone matches every text |
| StoreLemmas.LikeLiteralPrefix | src/web/api.py:62 | a pattern that starts with wildcard-free text matches exactly when the text starts with it, ignoring ASCII case, and the rest of the pattern matches the rest |
| StoreLemmas.LikeAnyPrefix | src/web/api.py:62 | a pattern that starts with `%` matches exactly when the rest of the pattern matches some suffix of the text |
| StoreLemmas.LikeContainsOnly | src/web/api.py:62 | `%key%` matches only texts that contain the key, ignoring ASCII case |
| StoreLemmas.LikeContainsAll | src/web/api.py:62 | `%key%` matches every text that contains the key, ignoring ASCII case |
| Store.Like | src/web/api.py:62 | no contract of its own: SQLite's `LIKE`, whose promises are `StoreLemmas.LikeContains` and the other `Like` lemmas |
| StoreLemmas.LikeContains | src/web/api.py:62 | for a key without wildcards, `%key%` matches exactly the texts that contain the key, ignoring ASCII case |
| StoreLemmas.LikeUnderscoreLooser | src/web/api.py:62 | `_` in a key is a wildcard: a key holding `_` also matches links that differ from it in that place |
| Pipeline.InstallationRows | src/processors/lever.py:31-33 | the rows of an installation are exactly the stored rows with that id |
| Pipeline.InstallationData | src/processors/lever.py:29-42 | the profile is returned exactly when the installation has a single row, and it is that row; no row raises `ValueError`, and exactly more than one raises `MultipleResultsFound` |
| Pipeline.Answered | src/processors/lever.py:54-67 | at most one question is yielded per fragment |
| Pipeline.LeverProcessor.constructor | src/processors/lever.py:22-27 | a processor holds the installation's profile, runs headless, and has visited no page yet |
| Pipeline.LeverProcessor.Open | src/processors/lever.py:22-42 | a processor is created exactly when the installation has a single profile row; otherwise construction raises the lookup's error |
| Pipeline.LeverProcessor.ProcessQuestions | src/processors/lever.py:44-67 | returns what the questions step yields for the link, writes nothing, and records the apply page as visited when a browser was launched; every visited page ends with `/apply` and has no query |
| Pipeline.LeverProcessor.AnswerAll | src/processors/lever.py:54-67 | consults the agent on each fragment in order; a fragment whose call raises is skipped |
| Pipeline.LeverProcessor.ProcessJob | src/processors/lever.py:81-128 | the store and result after one job are those of the job step applied to the store before it |
| Pipeline.LeverProcessor.RecordJob | src/processors/lever.py:98-128 | the details are committed first; an unknown title stops there; otherwise the actions and the cleared `is_processing` flag are committed |
| Pipeline.LeverProcessor.Process | src/processors/lever.py:130-151 | the store after a run is every selected job applied in table order; a failed job keeps what it committed, and its error update is dropped |
| PipelineLemmas.AnsweredMembers | src/processors/lever.py:54-67 | a question is yielded exactly when its fragment was extracted and the call on it returned that action: a failing call drops only its own fragment |
| PipelineLemmas.AnsweredAppend | src/processors/lever.py:54-63 | questions are yielded in document order |
| PipelineLemmas.AnsweredAsWritten | src/processors/lever.py:60-62 | as written, every call to `generate_action` raises `TypeError`, so nothing is yielded |
| Pipeline.JobStep | src/processors/lever.py:84-128 | no contract of its own: `process_job`, whose promises are `PipelineLemmas.JobStepCases`, `PipelineLemmas.JobStepFrame` and `PipelineLemmas.JobStepClearsProcessing` |
| PipelineLemmas.JobStepCases | src/processors/lever.py:84-96 | a job whose link is invalid, whose fetch fails or whose model answer does not validate raises and writes nothing; an invalid link raises `ValueError` |
| Pipeline.RecordStep | src/processors/lever.py:98-128 | no contract of its own: recording one job, whose promises are `PipelineLemmas.RecordStepFrame`, `PipelineLemmas.RecordStepNeverMarks` and `PipelineLemmas.RecordStepCompletes` |
| PipelineLemmas.RecordStepFrame | src/processors/lever.py:98-128 | recording touches no posting but the job's own |
| PipelineLemmas.RecordStepNeverMarks | src/processors/lever.py:98-128 | recording never writes `has_error` or `is_agent_processed` |
| PipelineLemmas.JobStepNeverMarks | src/processors/lever.py:81-128 | a job never writes `has_error` or `is_agent_processed` |
| Pipeline.ProcessAll | src/processors/lever.py:142-151 | no contract of its own: the job loop of `process`, whose promises are `PipelineLemmas.ProcessAllNeverMarks` and `PipelineLemmas.ProcessAllKeeps` |
| PipelineLemmas.ProcessAllNeverMarks | src/processors/lever.py:142-151 | a whole run never marks a posting as failed or as agent-processed |
| PipelineLemmas.InfoChangesWrite | src/processors/lever.py:99-102 | recording the job details writes the five fields the model returned, and no other |
| PipelineLemmas.RecordStepCompletes | src/processors/lever.py:97-128 | a recording that does not raise leaves the returned title and `is_processing` false; an unknown title, in any letter case, stores no action |
| PipelineLemmas.JobStepClearsProcessing | src/processors/lever.py:81-128 | a job that does not raise leaves its posting with `is_processing` false |
| PipelineLemmas.StoredActions | src/processors/lever.py:110-128 | a completed job keeps the existing actions and appends one row per answered question, in order |
| PipelineLemmas.QuestionsOutcomeAsWritten | src/processors/lever.py:44-67 | as written, the questions step yields nothing whenever it does not raise |
| PipelineLemmas.RecordStepNoQuestions | src/processors/lever.py:108-123 | no action row is stored when the questions step yields nothing |
| PipelineLemmas.JobStepAsWrittenAddsNoActions | src/processors/lever.py:81-128 | as written, a job stores no action row at all, whatever the form holds |
| PipelineLemmas.JobStepFrame | src/processors/lever.py:81-128 | a job touches no posting but its own |
| PipelineLemmas.ProcessAllKeeps | src/processors/lever.py:142-151 | a posting stays as it was through a run when every job on its id fails early |
| PipelineLemmas.SameIdSameRow | src/db/model.py:25 | ids are primary keys: two rows with the same id are the same row |
| PipelineLemmas.FailedPostingReselected | src/processors/lever.py:130-151 | a selected posting whose job fails early is still pending after the run, so the next run selects it again |
| Api.ParseExtensionRequest | src/web/api.py:14-17 | a page body validates exactly when `url`, `html` and `timestamp` are strings; otherwise `ValidationError` |
| Api.ParseInstallRequest | src/web/api.py:26-29 | an install body validates exactly when `installation_id`, `resume` and `preferences` are strings |
| Api.StrList | src/web/api.py:34 | a `list[str]` validates exactly when every item is a string, and keeps them all in order |
| Api.ParseListingsRequest | src/web/api.py:32-34 | a listings body validates exactly when it is an object whose `installation_id` is a string and whose `links` is an array of strings; the id and the links, in order, are the posted strings |
| Api.ActionsFromRows | src/web/api.py:74-83 | each stored row becomes an action with the row's kind, selector and answer, in order; a row with an unknown kind raises `ValidationError` |
| Api.AnalyzePage | src/web/api.py:50-85 | the response is a JSON list that validates back, item by item, to the page's actions |
| Api.DumpActions | src/web/api.py:85 | the dumped list has one item per action, and each item validates back to its action |
| Api.Install | src/web/api.py:88-108 | a valid body is answered with the fixed search pages; an invalid one raises `ValidationError` |
| Api.Listings | src/web/api.py:111-125 | a valid body is answered with `success` and the number of links posted |
| ApiLemmas.WhereFirst | src/web/api.py:59-67 | the first match of a query is the first row in table order that passes the filter |
| ApiLemmas.WhereNone | src/web/api.py:59-67 | a query returns nothing when no row passes the filter |
| ApiLemmas.LookupKeyStripsOnce | src/web/api.py:54-56 | the lookup key is the cleaned URL with exactly one trailing `/apply` removed; a URL `urlsplit` rejects has no key |
| Api.PageActions | src/web/api.py:58-83 | no contract of its own: the lookup of `analyze_page`, whose promises are `ApiLemmas.PageActionsFirstMatch` and `ApiLemmas.PageActionsNoMatch` |
| ApiLemmas.PageActionsFirstMatch | src/web/api.py:58-83 | for a key without wildcards, the page gets the actions of the first posting whose link contains the key, ignoring ASCII case |
| ApiLemmas.PageActionsNoMatch | src/web/api.py:67 | for a key without wildcards, a page whose key no stored link contains raises `IndexError` |
| ApiLemmas.UnderscoreKeyMatchesMore | src/web/api.py:62 | an `_` in the key is a wildcard, so a page can pick up the actions of a posting whose link differs from its URL |
| ApiLemmas.RowParses | src/web/api.py:75-81 | a stored row validates exactly when its kind is one of the four |
| ApiLemmas.ActionsFromRowsAccepts | src/web/api.py:74-83 | the rows validate exactly when every row's kind is one of the four |
| ApiLemmas.ActionsOfMembers | src/web/api.py:68-72 | the action query keeps exactly the rows of the posting |
| ApiLemmas.InstallIgnoresProfile | src/web/api.py:94-108 | every valid install body gets the same answer: the résumé and preferences are not read |
| DomActions.Typing | extensions/actions.js:8-11 | one `input` event per character, the k-th seeing the first k characters |
| DomActions.FirstOption | extensions/actions.js:29 | the first option whose value or text equals the argument; none exactly when no option does |
| DomActions.Element.constructor | extensions/actions.js:3-44 | an element starts with its tag, options and value and no events |
| DomActions.Document.constructor | extensions/actions.js:3-44 | a document of distinct elements, whose selector matches name one of them, starts valid with no alerts |
| DomActions.Document.Snapshot | extensions/actions.js:3-44 | one state per element, in document order |
| DomActions.Document.DoType | extensions/actions.js:3-14 | a selector that does not parse throws and one that matches nothing returns false, both leaving every element as it was; a match is focused, cleared, typed into character by character and sent `change`, and no other element changes |
| DomActions.Document.DoClick | extensions/actions.js:16-22 | same error cases; a match is focused and clicked, nothing else changes |
| DomActions.Document.DoSelect | extensions/actions.js:24-44 | same error cases; a `SELECT` takes the value of the first option named by value or text (or returns false unchanged), any other element takes the argument, and nothing else changes |
| DomActionLemmas.TypedHoldsText | extensions/actions.js:7-13 | after typing, the element holds exactly `String(v)`, with one event per character plus focus and change, the last `input` seeing the whole text |
| DomActionLemmas.SelectOnSelect | extensions/actions.js:28-36 | on a `SELECT` an argument no option names changes nothing and returns false; one that names an option returns true and sets an option value no later than it |
| DomActionLemmas.SelectStaysInOptions | extensions/actions.js:28-36 | a `SELECT` never takes a value its options do not offer |
| DomActionLemmas.SelectOnOtherElement | extensions/actions.js:37-43 | any other element always accepts the argument as given |
| ContentScript.ExtractSearchLinks | extensions/content.js:49-105 | the anchor loop then the cite loop collect exactly the links `SearchLinks` describes |
| ContentScript.StepOf | extensions/content.js:304-336 | one action leaves as many element states as the page has |
| ContentScript.RunOf | extensions/content.js:300-349 | one outcome per action, and as many element states as the page has |
| ContentScript.ExecuteOne | extensions/content.js:301-348 | one action changes the page, the alerts and its outcome as `StepOf` describes |
| ContentScript.ExecuteActions | extensions/content.js:297-352 | the whole loop changes the page, the alerts and the outcomes as `RunOf` describes |
| ContentScript.OnProcessJobPage | extensions/content.js:355-362 | without `jobActions` the call rejects with a `TypeError` and nothing changes; otherwise the actions are replayed as `RunOf` describes |
| ContentScript.SearchPage.constructor | extensions/content.js:7-8 | a page starts unprocessed, with no monitor running and nothing sent |
| ContentScript.SearchPage.ProcessPage | extensions/content.js:149-239 | a processed page is left alone; a captcha starts the monitor and sends `captchaDetected`; otherwise the page is marked processed, its links are reported once, and it either submits or clicks the next page; a processed page has reported its links exactly once and submitted at most once |
| ContentScript.SearchPage.CaptchaTick | extensions/content.js:121-146 | with no monitor running or a captcha still present nothing happens; otherwise the monitor stops, `captchaResolved` is sent, and the page is processed: a captcha again restarts the monitor after `captchaDetected`, else the links and the pagination follow and the page is marked; a monitor only runs while the page is unprocessed |
| ContentScript.SearchPage.Init | extensions/content.js:367-381 | a page that is not a Google search page, or one already processed, is left alone; a captcha sends `captchaDetected` and starts the monitor; otherwise the page is marked, reports its links and paginates |
| ContentScript.IsGoogleSearchPage | extensions/content.js:11-17 | no contract of its own: `isGoogleSearchPage`, whose meaning is `ContentLemmas.IsGoogleSearchPageMeaning` |
| ContentLemmas.IsGoogleSearchPageMeaning | extensions/content.js:11-17 | the `google.com` test is subsumed by the `google.` one |
| ContentLemmas.HarvestableMeaning | extensions/content.js:60-69 | the `javascript:` and `#` tests are subsumed by the scheme test |
| ContentLemmas.AddNewDistinct | extensions/content.js:77-78 | pushing a link only when absent keeps the list free of duplicates |
| ContentLemmas.AddNewExtends | extensions/content.js:77-78 | pushing a link never removes one |
| ContentLemmas.FromAnchorsDistinct | extensions/content.js:56-81 | the anchor loop never collects a link twice |
| ContentLemmas.FromCitesDistinct | extensions/content.js:85-102 | the cite loop adds no duplicate to a list without any |
| ContentLemmas.SearchLinksDistinct | extensions/content.js:49-105 | `extractSearchLinks` never returns a link twice |
| ContentLemmas.FromAnchorsMembers | extensions/content.js:56-81 | a link is collected from the anchors exactly when a result anchor passes the filter with it |
| ContentLemmas.FromCitesMembers | extensions/content.js:85-102 | a link is in the list after the cite loop exactly when it was before or a qualifying cite leads to it |
| ContentScript.SearchLinks | extensions/content.js:49-105 | no contract of its own: the links `extractSearchLinks` returns, whose promises are `ContentLemmas.SearchLinksMembers`, `ContentLemmas.SearchLinksDistinct` and `ContentLemmas.SearchLinksKeepOrder` |
| ContentLemmas.SearchLinksMembers | extensions/content.js:49-105 | a link is returned exactly when a result anchor passes the filter with it or a cite whose `trim`med text is plain leads to it from outside `google.com` |
| ContentLemmas.SearchLinksKeepOrder | extensions/content.js:49-105 | links keep the order of their first occurrence |
| ContentLemmas.StepOutcomeIgnoresState | extensions/content.js:304-336 | how an action ends does not depend on what earlier actions did |
| ContentLemmas.RunOutcomes | extensions/content.js:300-349 | every action is attempted in order and ends as it would alone; a failing or throwing action stops nothing |
| ContentLemmas.UnknownKindFails | extensions/content.js:334-335 | an unknown kind fails and changes nothing |
| ContentLemmas.StepGuards | extensions/content.js:308-332 | `type` and `select` need a selector and a defined value, `click` a selector, `alert` a non-empty value; otherwise the action fails and changes nothing |
| ContentLemmas.ServerNullIsTyped | extensions/content.js:309-310 | a `type` action the server sends without an answer types the text `null` |
| ContentLemmas.ServerActionWithoutSelector | extensions/content.js:309-324 | a server action without a selector that is not an alert never reaches the page |
| Background.FirstOpened | extensions/background.js:133-172 | the queue stops at the first URL from `i` on whose tab opened, or at the end, having skipped only URLs whose tab failed |
| Background.Attempts | extensions/background.js:134-137 | one progress message per URL tried, numbered from `i + 1` |
| Background.FindTab | extensions/background.js:290-304 | the lowest index holding an entry for the tab, or none when no entry holds it |
| Background.MarkLoaded | extensions/background.js:290-304 | no contract of its own: the loaded mark of `onUpdated`, whose promises are `Background.MarkLoadedFrame`, `BackgroundLemmas.MarkLoadedOnce` and `BackgroundLemmas.MarkLoadedFirstEntry` |
| Background.MarkLoadedFrame | extensions/background.js:290-304 | a finished load keeps every URL, tab and link list, never turns a loaded entry back to loading, and changes only the entry `find` returns |
| Background.Worker.constructor | extensions/background.js:6-21 | both queues start idle and empty, with nothing sent |
| Background.NextOpened | extensions/background.js:133-170 | the retry stops at the first URL from the start whose tab opened, or at the end, having reported one progress message per failed attempt in order |
| Background.Worker.ProcessNextUrl | extensions/background.js:133-172 | the search index moves to the first URL whose tab opened, recording that tab as loading, or to the end, which ends the search; progress and completion messages follow the attempts; the application queue is untouched |
| Background.Worker.StartJobSearch | extensions/background.js:40-53 | the search state is reset to the new URLs and installation and the queue starts from the first URL |
| Background.Worker.HandleLinksExtracted | extensions/background.js:175-229 | with no entry at the current index the call throws and nothing changes; otherwise the links are appended to the entry, and on `submitLinks` the entry's links are posted, its tab removed and the search moved on |
| Background.Worker.SubmitLinks | extensions/background.js:183-228 | the current entry's links are posted with the installation id, its tab is closed, and the queue moves to the next URL whose tab opens, whatever the POST returned |
| Background.Worker.OnUpdated | extensions/background.js:277-305 | a completed load marks the search tab loaded while a search is active, and sends `processJobPage` only to the current application tab; nothing else changes |
| Background.Worker.OpenNextApplicationUrl | extensions/background.js:72-106 | the application index moves to the first URL whose tab opened, which becomes the current tab, or to the end, which ends the queue |
| Background.Worker.StartApplying | extensions/background.js:56-69 | the application state is reset to the new URLs and installation and the first URL whose tab opens is opened |
| Background.Worker.OnRemoved | extensions/background.js:308-321 | closing the current application tab advances the index by one and forgets the tab; any other tab changes nothing |
| BackgroundLemmas.FirstOpenedUnique | extensions/background.js:133-172 | the stopping index is the only one meeting its description |
| BackgroundLemmas.FirstOpenedAllOpen | extensions/background.js:133-172 | when every tab opens, the queue advances by exactly one URL |
| BackgroundLemmas.NotesShape | extensions/background.js:133-170 | a queue that stops early reports each URL tried and no completion; one that reaches the end reports each URL and then its completion |
| BackgroundLemmas.MarkLoadedOnce | extensions/background.js:290-304 | marking a tab loaded twice is the same as once |
| BackgroundLemmas.FindTabSameTabs | extensions/background.js:290-304 | which entry a tab finds depends only on the tab ids of the entries |
| BackgroundLemmas.MarkLoadedFirstEntry | extensions/background.js:290-304 | a load marks the lowest-indexed entry for its tab, even when a later entry holds the same tab |
| Operator.Limited | snippets/lever_processor_v1.py:34-35 | a positive limit below the row count keeps that many leading rows; otherwise every row is kept |
| Operator.QuestionProcessor.constructor | snippets/lever_processor_v1.py:16-22 | the processor keeps its limit and starts on the given database |
| Operator.QuestionProcessor.Process | snippets/lever_processor_v1.py:71-85 | the database ends as `QuestionRun` over the selected postings: each one's answers saved, and the posting marked only when its stream ended without an exception |
| Operator.QuestionProcessor.SaveAnswers | snippets/lever_processor_v1.py:78-82 | each answer the database accepts is saved in order; a refused one is skipped |
| Operator.LeverAutoApply.constructor | snippets/lever_processor_v1.py:89-93 | the run keeps its limit and browser flag and starts with an empty clipboard and nothing applied |
| Operator.LeverAutoApply.Process | snippets/lever_processor_v1.py:149-188 | a failed launch escapes before any posting and changes nothing; otherwise the desk ends as `ApplyRun` over the selected postings |
| Operator.LeverAutoApply.ReadCommand | snippets/lever_processor_v1.py:172-183 | the prompt reads a command, then notes when it contains `n`, and commits the command's update of the posting; running out of input stops it with the lines read so far consumed |
| Operator.LeverAutoApply.ApplyOne | snippets/lever_processor_v1.py:155-187 | one posting changes the desk and ends the loop exactly as `ApplyStep` describes |
| OperatorLemmas.LeverLike | snippets/lever_processor_v1.py:30 | `LIKE '%lever%'` holds exactly when the lower-cased link contains `lever` |
| Operator.GetPostings | snippets/lever_processor_v1.py:24-46 | no contract of its own: `get_postings`, whose promises are `OperatorLemmas.GetPostingsMembers` and `OperatorLemmas.GetPostingsLimited` |
| OperatorLemmas.GetPostingsMembers | snippets/lever_processor_v1.py:24-46 | without a positive limit, exactly the titled, unprocessed, not agent-processed Lever postings are selected |
| OperatorLemmas.GetPostingsLimited | snippets/lever_processor_v1.py:24-46 | with a positive limit, at most that many postings, all candidates, are selected |
| OperatorLemmas.RetrievePostingsMembers | snippets/lever_processor_v1.py:95-121 | without a positive limit, exactly the agent-processed, unprocessed, unexpired postings with stored questions are selected |
| Operator.SaveAction | snippets/lever_processor_v1.py:48-61 | no contract of its own: `save_action`, whose promise is `OperatorLemmas.SaveActionRow` |
| OperatorLemmas.SaveActionRow | snippets/lever_processor_v1.py:48-61 | saving adds one row with a fresh id, the posting's id, the markup, the question, the value as answer, the kind and the selector, and changes nothing else |
| OperatorLemmas.SaveAllFrame | snippets/lever_processor_v1.py:78-82 | saving answers only appends action rows |
| OperatorLemmas.SaveAllCount | snippets/lever_processor_v1.py:78-82 | saving adds exactly one row per accepted answer |
| Operator.QuestionRun | snippets/lever_processor_v1.py:74-85 | no contract of its own: the loop of `QuestionProcessor.process`, whose promises are `OperatorLemmas.QuestionRunMarks` and `OperatorLemmas.QuestionRunAsWritten` |
| OperatorLemmas.QuestionRunMarks | snippets/lever_processor_v1.py:74-85 | a posting is agent-processed after the loop exactly when it was before or a selected posting with its id had a stream that ended without an exception |
| OperatorLemmas.QuestionRunAsWritten | snippets/lever_processor_v1.py:78-85 | as written, the missing `process_questions` makes the loop change nothing |
| OperatorLemmas.RetrievedQuestionsReplay | snippets/lever_processor_v1.py:123-141 | every question record handed to the replay has the keys it reads, so the replay reaches every stored question of the posting |
| OperatorLemmas.CommandEffect | snippets/lever_processor_v1.py:171-178 | `is_processed` becomes false exactly when the command contains `r`, the notes change exactly when it contains `n`, and nothing else changes |
| Operator.ApplyStep | snippets/lever_processor_v1.py:160-183 | no contract of its own: one posting of the apply loop, whose promises are `OperatorLemmas.ApplyStepCommand` and `OperatorLemmas.ApplyStepApplied` |
| OperatorLemmas.ApplyStepCommand | snippets/lever_processor_v1.py:160-183 | for a posting that passes every step, the command's update lands on every row with its id, the apply link gets `/apply`, the cover letter is on the clipboard, and the loop ends exactly when the command contains `e` |
| OperatorLemmas.ApplyStepApplied | snippets/lever_processor_v1.py:162-167 | one posting adds at most its own apply link to the replayed links |
| Operator.ApplyRun | snippets/lever_processor_v1.py:154-188 | no contract of its own: the apply loop, whose promises are `OperatorLemmas.ApplyRunLinks` and `OperatorLemmas.ApplyRunSkipsBadLink` |
| OperatorLemmas.ApplyRunLinks | snippets/lever_processor_v1.py:154-188 | every link handed to `auto_apply` ends with `/apply` and has no query |
| OperatorLemmas.ApplyRunSkipsBadLink | snippets/lever_processor_v1.py:184-187 | a posting whose link cannot be cleaned is passed over as if it had not been selected |
| Analysis.ValidateLinks | snippets/analysis.py:21-33 | a link is new exactly when it was submitted and no stored posting with that link is unexpired |
| Analysis.MarkExpired | snippets/analysis.py:75-76 | a record without `title` raises `KeyError`; otherwise `expired` is set to true exactly when the title reads `unknown` in any case, and every other key is kept |
| Analysis.ReviewAllStep | snippets/analysis.py:249-289 | after one record: running out of input ends the session with an error, `exit` ends it successfully, and any other verdict moves on to the next record |
| Analysis.JobReviewer.constructor | snippets/analysis.py:236-237 | the review starts on the given database and input lines |
| Analysis.JobReviewer.ProcessJobs | snippets/analysis.py:236-289 | the database, the unread input and the outcome end as `ReviewAll` over the records ready for review |
| Analysis.JobReviewer.ReviewEach | snippets/analysis.py:249-289 | the loop over records ends as `ReviewAll` over them |
| Analysis.JobReviewer.ReviewOne | snippets/analysis.py:253-287 | the command loop for one record ends as `ReviewRecord` describes |
| Analysis.ProcessHtml | snippets/analysis.py:206-211 | no contract of its own: `process_html`, whose promise is `AnalysisLemmas.ProcessHtmlPartition` |
| AnalysisLemmas.ProcessHtmlPartition | snippets/analysis.py:206-211 | the new links split into two disjoint sets that together are all of them: those naming wellfound, linkedin or ycombinator for manual handling, and the rest |
| AnalysisLemmas.ValidateLinksStored | snippets/analysis.py:21-33 | a stored link counts as new exactly when every posting holding it is expired |
| AnalysisLemmas.UnknownAnyCase | snippets/analysis.py:75-76 | any casing of `unknown` marks the record expired |
| AnalysisLemmas.LoopsDisjoint | snippets/analysis.py:238-248 | no posting is selected both for a cover letter and for review |
| AnalysisLemmas.CoverLetterEnablesReview | snippets/analysis.py:121-126 | writing a cover letter moves a posting from the cover-letter queue to the review queue |
| AnalysisLemmas.ReviewRecordsMembers | snippets/analysis.py:238-248 | review selects exactly the stored titled, unprocessed postings that have a cover letter |
| AnalysisLemmas.CoverLetterRecordsMembers | snippets/analysis.py:87-97 | the cover-letter pass selects exactly the stored titled, unprocessed postings without one |
| AnalysisLemmas.LexLeTotal | snippets/analysis.py:222 | string order relates every two strings |
| AnalysisLemmas.LexLeAntisymmetric | snippets/analysis.py:222 | two strings each ordered before the other are equal |
| AnalysisLemmas.LexLeTransitive | snippets/analysis.py:222 | string order is transitive |
| AnalysisLemmas.SortedCons | snippets/analysis.py:222 | a head no greater than a sorted tail gives a sorted list |
| AnalysisLemmas.InsertPermutes | snippets/analysis.py:222 | inserting adds exactly one element |
| AnalysisLemmas.InsertSorted | snippets/analysis.py:222 | inserting into a sorted list keeps it sorted |
| AnalysisLemmas.SortSorted | snippets/analysis.py:222 | sorting yields a sorted permutation |
| Analysis.GetPages | snippets/analysis.py:220-222 | no contract of its own: `get_pages`, whose promises are `AnalysisLemmas.GetPagesSorted` and `AnalysisLemmas.GetPagesUnique` |
| AnalysisLemmas.GetPagesSorted | snippets/analysis.py:220-222 | the pages come back sorted, one per file, each under `search_pages/`, a permutation of the prefixed names |
| AnalysisLemmas.MultisetTail | snippets/analysis.py:222 | dropping the head removes exactly it |
| AnalysisLemmas.SortedSameHead | snippets/analysis.py:222 | two sorted permutations of each other start with the same element |
| AnalysisLemmas.SortedUnique | snippets/analysis.py:222 | two sorted permutations of each other are equal |
| AnalysisLemmas.GetPagesUnique | snippets/analysis.py:220-222 | the page order is the only sorted order of the prefixed names |
| Analysis.Parse | snippets/analysis.py:255-287 | no contract of its own: how the review reads a line, whose promises are `AnalysisLemmas.ParseSpellings`, `AnalysisLemmas.ParseExit` and `AnalysisLemmas.ParseBlank` |
| AnalysisLemmas.ParseSpellings | snippets/analysis.py:255-287 | each command is read exactly when the stripped, lower-cased line is its spelling |
| AnalysisLemmas.NormalizeExit | snippets/analysis.py:256 | surrounding whitespace and case are dropped before comparison |
| AnalysisLemmas.ParseExit | snippets/analysis.py:256-284 | ` Exit` with a newline reads as `exit` |
| AnalysisLemmas.ParseBlank | snippets/analysis.py:256-267 | a line of whitespace marks the job processed |
| AnalysisLemmas.UpdateOne | snippets/analysis.py:262-264 | a one-column update changes only the rows with its id and only the postings table |
| AnalysisLemmas.ReviewRecordShape | snippets/analysis.py:253-287 | reviewing a record touches only the postings table and keeps its size |
| Analysis.ReviewRecord | snippets/analysis.py:253-287 | no contract of its own: the review of one record, whose promises are `AnalysisLemmas.ReviewRecordEffect` and the other `ReviewRecord` lemmas |
| AnalysisLemmas.ReviewRecordEffect | snippets/analysis.py:253-287 | reviewing a record leaves rows with other ids alone; its own row becomes processed on a blank line and expired on `e`, and changes in no other field except its notes |
| AnalysisLemmas.ReviewRecordNotes | snippets/analysis.py:260-266 | after a review, the notes on any row are either the old notes or a line typed right after an `n` |
| AnalysisLemmas.ReviewRecordConsumes | snippets/analysis.py:254-261 | the review reads at least one line whenever there is one and leaves a suffix of the input unread |
| AnalysisLemmas.ReviewRecordReprompts | snippets/analysis.py:254-259 | `c` or an unrecognised line keeps the review on the same record as if it had not been typed |
| Analysis.ReviewAll | snippets/analysis.py:249-289 | no contract of its own: the review session, whose promises are `AnalysisLemmas.ReviewAllFrame` and `Analysis.ReviewAllStep` |
| AnalysisLemmas.ReviewAllFrame | snippets/analysis.py:249-289 | rows whose id no reviewed record has are untouched |

## Left out

- `LeverAutoBrowser` of `src/web/lever.py` is not modelled apart from `LeverBrowser`. Its `auto_apply` replay is modelled as `Browser.LeverBrowser.AutoApply`, on the same session.
- The `InstalledExtensions` table is modelled as `Store.Db.installations`, with only the installation id, resume and preferences the processor reads. `src/db/model.py` does not declare it, and the code that writes it is not part of this model.
- The language model, HTTP fetches, HTML parsing, pyppeteer and page loads enter as oracle functions (`World`, `Env`, `consult`, `stream`). Their behaviour is not modelled.
- Selectors: only the compound selectors the Lever browser builds are compiled. Combinators and pseudo-classes are not modelled.
- `CleanUrl`: `urlsplit` and `urlunsplit` are those of CPython 3.11. From 3.12.4 on, `urlunsplit` writes `//` before a path that starts with `//` when the netloc is empty, so `UrlLemmas.CleanUrlNotIdempotent` holds only up to 3.12.3.
- `CleanUrl`: the preprocessing `urlsplit` does is not modelled. That covers stripping leading C0 controls and spaces, removing tab, CR and LF, validating bracketed hosts, and the NFKC check of the netloc.
- Store: SQLite does not enforce the `VARCHAR` lengths or the foreign keys, and the model does not check them either.
- Store: `created_at` timestamps and JSON floats are not modelled.
- Extension: chrome notifications, `chrome.storage` removal, `setTimeout` delays and the popup (`extensions/popup.js`) are not modelled.
- Background: the `onMessage` dispatch and the captcha handlers are not modelled. Each handler is a method of its own.
- Background: handlers are modelled as atomic, so the interleaving of their `await`s is not modelled.
- Background: the second `tabs.remove` attempt, and the logging of a failed listings POST, are not modelled. The queue moves on the same way whatever the POST returns.
- Content script: the captcha monitor's `setInterval` is a flag, and each tick is a call to `CaptchaTick`. The page-load wait is not modelled.
- Content script: the `catch` branch of `processPage`, which reports an empty link list when the page throws, is not modelled. The page queries it guards are parameters, which cannot throw.
- Content script: whether a captcha is present, the page's anchors and cites, the page label and the next button are parameters. Their DOM queries are not modelled.
- `DomActions`: `String(value)` is modelled for strings, `null` and `undefined` only. Other JSON types cannot reach the page from the server.
- `DomActions`: what CSS matching does is a parameter of the document, and `alert` only records its message.
- Api: the index route (`GET /`), which answers a constant, is not modelled.
- `Operator.QuestionProcessor.SaveAnswers`: whether the database accepts each save is the `saveOk` parameter. Why a save fails is not modelled.
- Operator and `Analysis`: the clipboard is a field, and standard input is a list of lines. `print`, `webbrowser.open` and `pyperclip` failures other than a `None` text are not modelled.
- `Analysis`: these operations are not modelled, because each is only file I/O, HTTP or model calls around the parts that are modelled: `analyze_html`, `enrich_unprocessed`, `process_links`, `save_job_analysis`, `start_processing`, and the generation loop of `cover_letter_gen`. Their marking of `unknown` titles is `Analysis.MarkExpired`, and the cover-letter filter is `Analysis.CoverLetterRecords`.
- `Analysis.ValidateLinks` and `Analysis.ProcessHtml` return sets. The order Python's set iteration gives the lists is not modelled.
- `Analysis.JobReviewer.ProcessJobs`: reading past the end of input (`EOFError`) ends the session with `EndOfInput`.
- `AnalysisLemmas.ReviewRecordEffect`: `ReviewRecord` and `ReviewAll` take the command reader as a parameter, so the lemmas hold for any reader. The methods use `Parse`, and `AnalysisLemmas.ParseSpellings` ties `Parse` to the script's spellings.
- `Strings.Lower`: lower-casing is ASCII-only. Python's `str.lower` also folds non-ASCII letters, such as the Kelvin sign to `k`.
- Timing, logging, `tqdm` progress bars and console output are not modelled.
