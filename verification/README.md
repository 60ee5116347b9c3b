# hs init and the site-link shortcuts, in Dafny

This project models two pieces of the HubSpot CMS command line (`hs`).

The first is the `init` command (`packages/cms-cli/commands/init.js`). It creates a config file for a portal:
- It refuses when a config file already exists.
- Otherwise it emits a STARTED telemetry event, creates an empty placeholder file and registers an exit hook that deletes it.
- It then dispatches on `--auth` to one of three auth-method flows: personal access key, OAuth2 or API key.
- On success it emits COMPLETE with the portal id and exits with code 0. On failure it logs the error and emits ERROR.

A run of the command is an ordered trace of `Effect`s. Each prompt, cms-lib call, telemetry event and `process.exit` is one entry. Whether a prompt answers and whether an awaited helper returns or throws are inputs (`Replies`). A small state machine (`Absent`, `Placeholder`, `Populated`) replays a trace to give the config file it leaves behind.

The second piece is the site-link table behind `hs open` (`packages/cms-cli/lib/links.js`):
- `getSiteLinks` builds fourteen links of shortcut, optional alias and URL from the website origin of the configured environment and a portal id.
- `openLink` finds the first link whose shortcut or alias equals the query.
- `logSiteLinks` turns the links into a header row followed by one row per link, sorted by shortcut.

Modules:
- `Wrappers`: `Option` and `Result`.
- `Strings`: JavaScript truthiness of an optional string, JavaScript's `<` on strings, and the substring predicates the link contracts use.
- `Constants`: environments, auth methods and their `--auth` values.
- `Init`: options, flows, dispatch, the handler and the config-file state machine.
- `InitProofs`: properties of the handler's trace and of the file it leaves behind.
- `Links`: the link table, `find` and `openLink`.
- `LinkProofs`: what the table's uniqueness buys.
- `LinkRows`: the sort and the rows of `logSiteLinks`.

## Model

| member | source | states |
|---|---|---|
| Constants.AuthValue | packages/cms-cli/commands/init.js:126 | Each auth method has a non-empty `--auth` value: `personalaccesskey`, `oauth2` or `apikey`. |
| Constants.AuthValueInjective | packages/cms-cli/commands/init.js:128-132 | Two methods share a value exactly when they are the same method, so a value names one method. |
| Init.AuthType | packages/cms-cli/commands/init.js:85 | A missing `auth` option defaults to the personal-access-key value; a given one is used as is. |
| Init.EnvOf | packages/cms-cli/commands/init.js:92 | The environment is QA exactly when `qa` is truthy, otherwise PROD. |
| Init.ConfigPath | packages/cms-cli/commands/init.js:86 | `getConfigPath` yields a path exactly when a config file exists, and that path is the file's. |
| Init.AuthCliOption | packages/cms-cli/commands/init.js:124-135 | The option has three choices, lists every method's value, and its default is the personal-access-key value, which is one of the choices. |
| Init.ParseAuthArgument | packages/cms-cli/commands/init.js:124-135 | A missing argument takes the default; a listed value passes through; any other value is rejected before the handler runs. |
| Init.PersonalAccessKeyFlow | packages/cms-cli/commands/init.js:40-50 | The flow succeeds exactly when the key prompt, the name prompt and `updateConfigWithPersonalAccessKey` all succeed. The key prompt comes first, with the command's env, then the name prompt. The save is attempted exactly when both prompts answer, always with make-default `true` and the prompted name. On success the last of the three steps is the returning save of exactly the config the flow returns. The prompted name overrides the key data's name, and the other fields come from the key data. A throw ends the flow: a failed run stops at the step that threw (the key prompt, the name prompt or the save), and it never adds a portal, changes the default or writes the config. |
| Init.OAuthFlow | packages/cms-cli/commands/init.js:52-61 | The flow succeeds exactly when the prompt answers and the OAuth exchange returns. The command's env overrides the answers' env, also in the config passed to the exchange. `updateDefaultPortal` appears exactly when the flow succeeds. The OAuth prompt comes first. Once it answers, the next step is the exchange of exactly the answers with the command's env. On success the whole run is the prompt, the returning exchange of the returned config, and `updateDefaultPortal` of that config's name. A failed run stops at the prompt or exchange that threw, and it never adds a portal, changes the default or writes the config. |
| Init.ApiKeyFlow | packages/cms-cli/commands/init.js:63-73 | The flow succeeds exactly when the prompt answers, with the command's env overriding the answers'. On success the whole run is the prompt, then `updatePortalConfig(cfg)`, `updateDefaultPortal(cfg.name)`, `writeConfig()` in that order, with nothing in between. A failed prompt is the only step of a failed run, so a failed run never adds a portal, changes the default or writes the config. |
| Init.Lookup | packages/cms-cli/commands/init.js:75-79 | The flow table has an entry exactly for the three values the option accepts, and each entry's method has that value. |
| Init.Dispatch | packages/cms-cli/commands/init.js:108 | An unknown value throws a `TypeError` before any step. A known one starts by invoking its method's flow, whose own prompt comes next. The run succeeds exactly under that method's success condition. After the invoke marker, the steps and the result are exactly those of that method's flow function, so the config COMPLETE reports is that flow's. Every step is a flow step. |
| Init.Handler | packages/cms-cli/commands/init.js:84-121 | Every run starts with the command-usage event and ends with an exit or with the ERROR event. |
| Init.Prelude | packages/cms-cli/commands/init.js:89-105 | The command-usage event, which comes before the precondition, then, once the precondition holds: STARTED without a portal id, placeholder, exit hook. `InitProofs.CountStatusPrelude` shows it tracks STARTED once and nothing else; `InitProofs.PreludeOrder` fixes its place in the trace. |
| Init.Conclude | packages/cms-cli/commands/init.js:107-120 | The steps after the flow: report, COMPLETE with the portal id and exit 0 on success; error log and ERROR without a portal id on failure. `InitProofs.CountStatusConclude` shows it tracks exactly one of COMPLETE or ERROR; `InitProofs.ExactlyOneOutcome` states the outcome of the whole trace. |
| Init.RunFlow | packages/cms-cli/commands/init.js:75-79 | The flow each table entry holds. Every entry's run takes at least one step, and every step is a flow step: a prompt, a collaborator call or a config write, never a report or an exit. Each method's entry asks that method's questions first, succeeds exactly under that method's condition, and returns the portal id from that method's answers. |
| InitProofs.RefusesExistingConfig | packages/cms-cli/commands/init.js:89-100 | With a config file present at a non-empty path the trace is: usage event, report of the path, exit with code 1. There is no STARTED event, no placeholder and no exit hook, and the file is unchanged even after exit. |
| InitProofs.RefusalIffConfigExists | packages/cms-cli/commands/init.js:94-100 | The handler reports an existing file, and exits with code 1, exactly when a file exists at start and its path is truthy, that is, not empty. |
| InitProofs.PreludeOrder | packages/cms-cli/commands/init.js:89-108 | When the handler does not refuse, the first four steps are usage, STARTED, `createEmptyConfigFile`, `handleExit(deleteEmptyConfigFile)`. Every flow step comes after them, and every COMPLETE or ERROR event comes after every flow step. |
| InitProofs.ExactlyOneOutcome | packages/cms-cli/commands/init.js:107-120 | When the handler does not refuse, there is exactly one STARTED event and exactly one COMPLETE or ERROR event. On success, COMPLETE carries the flow's portal id and the trace ends with its only exit, code 0. On failure, ERROR without a portal id ends the trace and there is no exit. |
| InitProofs.FlowPersistence | packages/cms-cli/commands/init.js:40-73 | No flow creates the file. Relative to the persistence assumption `Init.Persists` (see below), a failed flow persists nothing, and a successful one persists through its own write. |
| InitProofs.AssumedFileOutcome | packages/cms-cli/commands/init.js:104-120 | Under the assumptions stated below: a successful run leaves a populated file that survives exit; a failed run leaves the placeholder, which the exit hook removes. |
| InitProofs.CliInputAlwaysDispatches | packages/cms-cli/commands/init.js:128-133 | Every value the parser accepts, the default included, has an entry in the flow table. A missing option dispatches to the personal-access-key flow. |
| InitProofs.LookupRoundTrip | packages/cms-cli/commands/init.js:75-79 | Looking up a method's value yields that method, and any value that is found is the found method's value. |
| InitProofs.OAuthDefaultFollowsExchange | packages/cms-cli/commands/init.js:58-59 | `updateDefaultPortal` only ever comes after an `authenticateWithOauth` that returned. A failed exchange never changes the default portal. |
| Strings.Truthy | packages/cms-cli/commands/init.js:94 | JavaScript truthiness of a string that may be missing: neither the missing value nor the empty string is truthy. The same test guards the alias in `links.js` at lines 13 and 108. |
| Strings.Less | packages/cms-cli/lib/links.js:11 | The comparator's `a.shortcut < b.shortcut`. `Strings.LessAtFirstDifference` ties it to the order of the first differing character, and the four lemmas below make it a strict total order. |
| Strings.LessAtFirstDifference | packages/cms-cli/lib/links.js:11 | `a < b` holds exactly when, past a common prefix, `a` ends while `b` goes on, or `a` has the smaller character. |
| Strings.LessIrreflexive | packages/cms-cli/lib/links.js:11 | No shortcut sorts before itself. |
| Strings.LessTransitive | packages/cms-cli/lib/links.js:11 | The comparison is transitive. |
| Strings.LessTotal | packages/cms-cli/lib/links.js:11 | Of two distinct strings one sorts before the other. |
| Strings.LessAsymmetric | packages/cms-cli/lib/links.js:11 | Two strings never sort before each other. |
| Links.LinkEnv | packages/cms-cli/lib/links.js:30 | The table uses QA exactly when the configured environment is `qa`. |
| Links.BaseUrl | packages/cms-cli/lib/links.js:29-31 | `baseUrl` is the QA origin when the environment is `qa`, and the PROD origin otherwise. |
| Links.Render | packages/cms-cli/lib/links.js:33-103 | A table entry rendered keeps its shortcut and alias. A constant URL stays as written, and any other URL starts with `baseUrl` and holds the portal id right after the entry's path. `Links.Table` lists the fourteen entries in declaration order. |
| Links.SiteLinks | packages/cms-cli/lib/links.js:28-104 | There are fourteen links; shortcuts are distinct, aliases are non-empty and distinct, and no alias is a shortcut. Shortcuts hold no space. Exactly docs and forums lack an alias and have their constant URLs. Every other URL starts with `baseUrl` and contains the portal id. |
| Links.Matches | packages/cms-cli/lib/links.js:108 | A link matches a query on its shortcut, or on its alias when that alias is truthy. `LinkProofs.SiteLinkMatch` and `LinkProofs.AtMostOneMatch` state what this means for the site-link table. |
| Links.Find | packages/cms-cli/lib/links.js:107-109 | Soundness: a found link is in the table and matches. Completeness: nothing is found only when no link matches. A found link is the first match. |
| Links.OpenLink | packages/cms-cli/lib/links.js:106-120 | A browser is opened exactly when some link matches, on a matching link's URL. Otherwise the no-match report carries the query. |
| LinkProofs.AtMostOneMatch | packages/cms-cli/lib/links.js:107-109 | In a table with the uniqueness invariant, two links matching one query are the same link. |
| LinkProofs.SiteLinkMatch | packages/cms-cli/lib/links.js:108 | A site link matches exactly when the query is its shortcut or its alias. Docs and forums match by shortcut only. |
| LinkProofs.OpenLinkOpensTheMatch | packages/cms-cli/lib/links.js:106-118 | Whenever the query matches link `i`, `openLink` opens exactly link `i`'s URL. |
| LinkProofs.FixedLinksIgnorePortal | packages/cms-cli/lib/links.js:54-66 | For any two portal ids, environments and origins, the tables have the same shortcuts and aliases in the same order, and the docs and forums links are identical. |
| LinkRows.Insert | packages/cms-cli/lib/links.js:11 | Inserting into a sorted sequence adds exactly that link and keeps the sequence sorted by shortcut. |
| LinkRows.SortByShortcut | packages/cms-cli/lib/links.js:10-11 | The result is a permutation of the links, in ascending shortcut order. |
| LinkRows.AscendingPermutationUnique | packages/cms-cli/lib/links.js:11 | Two ascending permutations of links with distinct shortcuts are equal, so every correct sort gives the same rows. |
| LinkRows.SortKeepsShortcutsDistinct | packages/cms-cli/lib/links.js:11 | Sorting keeps distinct shortcuts distinct. |
| LinkRows.ShownAlias | packages/cms-cli/lib/links.js:13 | The alias a row shows: only a truthy alias. `LinkRows.SiteLinkRows` shows that every site link shows its alias. |
| LinkRows.FirstCell | packages/cms-cli/lib/links.js:13 | The first cell of a row. `LinkRows.FirstCellRoundTrip` shows it reads back as the shortcut and the shown alias. |
| LinkRows.Row | packages/cms-cli/lib/links.js:12-16 | A link's row. `LinkRows.RowsShowLinks` shows each row reads back as a link's shortcut, shown alias and URL. |
| LinkRows.FirstCellRoundTrip | packages/cms-cli/lib/links.js:13 | A first cell reads back as the link's shortcut and the alias it shows. So the cell holds `[alias: X]` exactly when the link has a non-empty alias `X`. |
| LinkRows.Rows | packages/cms-cli/lib/links.js:12-16 | Row `i` is the row of link `i`: first cell, `=>`, URL. |
| LinkRows.LogSiteLinks | packages/cms-cli/lib/links.js:9-18 | The header `Header` (`Shortcut`, empty, `Url`) comes first, then one three-cell row per link with `=>` in the middle. Every link's row appears, and every row is some link's row. |
| LinkRows.RowsAscending | packages/cms-cli/lib/links.js:10-16 | For distinct, space-free shortcuts, the shortcuts read back from the rows are strictly ascending. |
| LinkRows.RowsShowLinks | packages/cms-cli/lib/links.js:12-16 | Every row under the header shows some link's shortcut, the alias it has to show, and its URL. |
| LinkRows.SiteLinkRows | packages/cms-cli/lib/links.js:9-18 | The site-link rows are a header plus fourteen rows, strictly ascending by shortcut. Each row shows a link's shortcut, its alias exactly when it has one, and its URL. |

## Left out

- Collaborator internals are not part of this model. That covers the cms-lib config functions (`createEmptyConfigFile`, `deleteEmptyConfigFile`, `updatePortalConfig`, `updateDefaultPortal`, `writeConfig`), `handleExit` and its signal handling, the prompts, `authenticateWithOauth`, `updateConfigWithPersonalAccessKey` and telemetry. Each is a trace entry. What the awaited ones answer is an input, and the synchronous config mutators are taken not to throw.
- `getConfigPath` is not a trace entry. Its first call is `Init.ConfigPath`, which reads the file state and `World.path`. Its second call, after the flow, is left out, as the line on the success message says.
- Init.Persists: which effects write the config file is an assumption about cms-lib code that is not part of this model. It has two halves. First, `writeConfig`, a returning `updateConfigWithPersonalAccessKey` and a returning `authenticateWithOauth` write the file. Second, nothing else writes it: not a throwing `updateConfigWithPersonalAccessKey` or `authenticateWithOauth`, and not `updatePortalConfig` or `updateDefaultPortal`. `InitProofs.FlowPersistence` and `InitProofs.AssumedFileOutcome` hold relative to this assumption.
- InitProofs.AssumedFileOutcome: holds only under three assumptions about code that is not part of this model. The first is `Init.Persists` above. The second is that `deleteEmptyConfigFile` deletes the file only while it is still the empty placeholder. The third is that `handleExit` runs the registered hook whenever the process ends, including the natural end of a failed run, where no `process.exit` is called. `Init.AtExit` states the second and third; the failure half of the lemma (placeholder removed, no file left) depends on both. It covers runs that start without a file. A file that exists but is reported under the falsy empty path also passes the check, and what `createEmptyConfigFile` does to such a file is not part of this model.
- `setLogLevel`, `logDebugInfo`, the wording of every log message (including the success message's fixed "personal access key" wording, which is cosmetic) and `logErrorInstance`'s output are left out. The model keeps which report happens, with the path of a refusal, the portal id of a success and the error of a failure.
- The success message also names the path from a second `getConfigPath()` call after the flow. That call and its path are left out: `ReportCreated` carries only the portal id.
- Async suspension, signal delivery and `process.exit` are single atomic trace steps. Nothing follows an `Exit` in a trace, and no concurrency is modelled.
- A JavaScript object lookup of an inherited name such as `toString` on `CONFIG_CREATION_FLOWS` is not modelled. Every name outside the three values is a missing entry.
- Init.Handler: its own contract states only the first and last step. The ordering, outcome and refusal properties are stated by the lemmas in `InitProofs`.
- `getHubSpotWebsiteOrigin` is not part of this model. It is a record of one origin per environment (`Links.Origins`).
- `getEnv()` is an input string.
- The portal id in `getSiteLinks` is the text the template literal interpolates, not a number.
- `Strings.Less` compares characters, whereas JavaScript compares UTF-16 code units. The two agree on the ASCII shortcuts of the table.
- `logSiteLinks` takes `Object.values(links)` as a sequence. The bold styling of the header, the `table` rendering with void borders and `logger.log` are left out; the model stops at the rows.
- LinkRows.SortByShortcut: it is an insertion sort, not the engine's `Array.prototype.sort`. `AscendingPermutationUnique` shows that every correct sort of links with distinct shortcuts yields the same order.
- LinkProofs.OpenLinkOpensTheMatch: states only that a match at `i` opens link `i`'s URL, not the converse. The converse would also need the fourteen URLs to be pairwise distinct for every origin and portal id, which the model does not state.
- The browser launch of `open` and the success message of `openLink` are left out. `openLink` yields the URL it would open or the no-match report.
- `packages/cms-cli/commands/customObject/schema/fetch-all.js` is not part of this model: it is command plumbing around a network download.
- `packages/cms-lib/api/content.js` is not part of this model: it is a one-line wrapper over an HTTP client.
