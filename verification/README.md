# A verified model of the console's pure logic and small state machines

The repository is a React console for a load-balancing and inference gateway. This project models the parts of it that
decide what is sent, kept, shown or rewritten, and proves what those parts are for. To verify:
`dafny verify dfyconfig.toml`.

## What is modelled

| module | source | main results |
|---|---|---|
| `ScrubLexer`, `ScrubSafety`, `ScrubFile` | `scripts/scrub-internal-ids.py` | the rewriting lexer conserves every line, and its output lexes to the scrubbed tokens exactly when every body respects its delimiter |
| `RuleFields`, `AiSerialize`, `WireContract`, `AiValidate`, `AiLimits`, `BackendTls` | `src/types/ai_gateway.ts`, `src/types/backend_tls.ts` | serialisation meets one declarative wire contract, written out member by member, is idempotent, and never adds a validation issue |
| `Bits`, `NetworkPrefix` | `src/types/network_prefix.ts` | two texts share a key exactly when they denote the same network |
| `Session`, `SessionWatch` | `src/session/` | one teardown a session, clean stores at every navigation, timers that act for their own token only |
| `Percent`, `LbIdentity` | `src/types/lb_identity.ts` | the delete path can be parsed back for arbitrary text |
| `LogPaging` | `src/hooks/useInstanceLogPaging.ts` | live tail is polling, the loaded lines are the current scan, and what sets that scan adrift |
| `Heartbeat` | `src/observability/auditWriter.ts` | what a stall means, and when it is and is not reported |
| `Rates`, `SnapshotRates`, `AiRequests` | `src/observability/` | partitions and groups of rates add up, rates integrate back to the counter |
| `DashboardLayout`, `MenuState`, `FormDefaults` | `src/pages/dashboardLayout.ts`, `src/hooks/` | reconciled layouts, prefix-closed menu states, defaults that only fill gaps, forms that are the fold of their writes |
| `RuleWire`, `FullproxyReplace` | `src/connector/instance/load_balancer.ts`, `src/types/lb_fullproxy_replace.ts` | what an edit saved as a whole-rule replace changes, keeps and loses |
| `AuditPolicy`, `AuditSink`, `Priority`, `TenantLimits` | `src/types/` | forms whose untouched save changes nothing |
| `StableHash` | `src/common.ts` | the rolling hash is a polynomial modulo 2^32 |
| `Text` | | substring search, splitting and joining, trimming, numerals |

Loops and objects that the source updates in place are methods and classes; each is proved equal to a specification
function or to one step of a run model, and the lemmas are about that function or over whole runs. The handlers of
`Session.Console`, `SessionWatch.Watch`, `LogPaging.Paging` and `FormDefaults.FormState` are one step each, and the parts of the rule validator push
exactly the issues raised; the table below lists what is then proved of the runs and of the whole validator. The environment is a
premise: the URL parser is a function from text to an optional eight-unit host, a purge settles in any order, well or
badly, other code may change both stores at any await, a timer fires at or after its due time, and the gateway's replace
and upsert rules are the ones the sources' comments state. `ParserOk`, `Canonical`, `Documented`, `Echoes` and
`Beats` are those premises by name.

## Where the code and its promise differ

- The scrubber's header says that syntax cannot break. It can: deleting text may write a closer. `ScrubSafety.RelexLine`
  and `ScrubFile.RelexFile` give the exact condition for finding the scrubbed tokens again, which keeps the syntax;
  `ScrubSafety.DeletionCanClose` is an input that breaks it.
- Text mode reads CR LF and CR as LF: a scrub that changes nothing keeps the file exactly when it holds no carriage return
  (`ScrubFile.IdentityKeepsFile`).
- The storage scan is written to leave no residue, but `if (!key) continue` skips the entry under the empty key:
  `Session.PurgedClean` is the exact condition, `Session.EmptyKeySkipped` an input.
- Clearing comes before navigating exactly when every step that navigates is careful (`Session.EveryNavigationIsClean`);
  a body that cannot read the token navigates over a stored one (`Session.GivingUpIsUnclean`).
- A teardown still waiting when the next session begins takes that session's token: a new session is spared exactly when
  no body waits (`Session.SparedExactly`, `Session.LateBodyTakesNewToken`).
- The redirect after a new login restores the page exactly when it was served under the application root and the address
  of the login page does not contain the stored target, since `move_forced` then stays where it is
  (`Session.RedirectRestores`, `Session.HostNamedLikeRoute`). The stored target is protocol-relative exactly when two
  slashes follow the root, since the check comes before the root is taken off (`Session.RedirectIsLocal`,
  `Session.RedirectWitnesses`).
- The idle timer of a live watcher is pending exactly when it has not lapsed: a visible page or a firing timer that finds
  another session stored cancels it, and only a step that finds the watcher's own arms it again
  (`SessionWatch.ArmedExactly`, `SessionWatch.TokenAwayAndBack`).
- Loaded log lines are not always one scan: a load-more that captured another cursor than the one at which the scan goes
  on, or another instance chosen while a cursor is set, sets it adrift, and no other handler does (`LogPaging.AdriftExactly`,
  `LogPaging.AdriftBreaks`, `LogPaging.InstanceUnderCursor`).
- Applying the keyword already in force on the newest page asks for nothing and leaves paging stuck with lines loaded
  (`LogPaging.RewindReplaces`).
- The form mirror keeps every write exactly when no write builds on an older form; an effect that runs between two writes
  with the form of an earlier render loses what came after it (`FormDefaults.FormIsFold`,
  `FormDefaults.LateEffectLosesWrite`).
- A replace carries every stored member, but what is posted is its serialisation: an edit that changes what the serialiser
  branches on also loses the unnamed members that then do not travel and that the gateway does not keep
  (`FullproxyReplace.UntouchedLost`, `FullproxyReplace.SelectorEditLosesRing`), and the order of two such edits counts
  (`FullproxyReplace.OrderDecides`).
- A blanked credential policy has its effect exactly when the rule had none (`FullproxyReplace.PolicyEdit`,
  `FullproxyReplace.PolicyStays`).
- Samples that differ in their grouping labels are in different groups, unless a label value holds the NUL that separates
  the parts of a key (`SnapshotRates.SameGroupExactly`, `SnapshotRates.NulCollides`).
- A retention capacity of 0 keeps everything, since `slice(-0)` is `slice(0)` (`Rates.RingIsSuffix`).
- A stall is reported exactly when the span since the first sight of the last value read exceeds two beats and the cadence
  (`Heartbeat.StoppedNotEarly`). Of a writer that beats that span is less than one beat and the read delay up to its last
  beat read, so only snapshots that stop carrying the family stretch it (`Heartbeat.BeatingExactly`,
  `Heartbeat.MissingReadingsStall`).
- An untouched priority draft sends nothing exactly when the stored default objective has no white space around it
  (`Priority.UntouchedSendsNothing`).
- Opening a menu path leaves it open, with its prefixes, exactly when it has no empty segment and no sibling's key is the
  path's or a segment prefix of it (`MenuState.PathOpensExactly`). Names that contain `/` make such keys possible (`MenuState.HidingSibling`);
  without them there are none (`MenuState.PlainNamesAllowed`).

## Model

| member | source | states |
|---|---|---|
| `ScrubLexer.ScanQuote` | scripts/scrub-internal-ids.py:92-108 | the index of the first quote after `i` that no odd run of backslashes escapes, or -1 when every one is escaped: closed at the last character and unterminated stay apart |
| `ScrubLexer.QuoteClosesExactly` | scripts/scrub-internal-ids.py:92-108 | the text ends at a position exactly when it is the first quote with an even number of backslashes directly before it, and nowhere exactly when there is none |
| `ScrubLexer.RewriteLine` | scripts/scrub-internal-ids.py:111-187 | the loop writes the tokens of an independent lexer with only comment and string bodies scrubbed, and returns the state that lexer carries, which does not depend on the scrub |
| `ScrubLexer.CommentTokens` | scripts/scrub-internal-ids.py:137-187 | line comments run to the end of the line, block comments to their closer or past it |
| `ScrubLexer.QuoteTokens` | scripts/scrub-internal-ids.py:169-187 | double quotes hold text to scrub in both styles, single quotes in the `#` style only |
| `ScrubLexer.LongTokens` | scripts/scrub-internal-ids.py:137-187 | backtick strings are left alone and may run on, triple quotes hold text to scrub |
| `ScrubSafety.LexConserves` | scripts/scrub-internal-ids.py:137-187 | a line is the concatenation of its tokens, unterminated quotes and trailing backslashes included |
| `ScrubSafety.LineConserves` | scripts/scrub-internal-ids.py:119-187 | the same for a line entered inside a comment, a backtick string or a triple quote |
| `ScrubSafety.IdentityScrub` | scripts/scrub-internal-ids.py:111-187 | a scrub that changes nothing leaves every token as it is |
| `ScrubSafety.TokenStable` | scripts/scrub-internal-ids.py:137-187 | a rewritten token is lexed as itself again exactly when its body still ends where its delimiter says |
| `ScrubSafety.RelexLine` | scripts/scrub-internal-ids.py:111-187 | re-lexing the rewritten line gives the scrubbed tokens exactly when every body respects its delimiter |
| `ScrubSafety.SyntaxKept` | scripts/scrub-internal-ids.py:15-16 | the promise "syntax cannot break" for safe lines: same delimiters, code, opaque text and carried state |
| `ScrubSafety.IdempotentSettles` | scripts/scrub-internal-ids.py:111-187 | an idempotent scrub leaves nothing to do on the tokens of its own output |
| `ScrubSafety.DeletionCanClose` | scripts/scrub-internal-ids.py:15-16 | on a comment line that cites an identifier the promise fails: the deletion writes a closer, the comment ends early, and the rewritten line lexes differently |
| `ScrubFile.Process` | scripts/scrub-internal-ids.py:201-217 | the changed lines with their numbers and the content, state threaded from line to line, for LF, CR LF and CR input and a last line without newline |
| `ScrubFile.ReadLinesProper` | scripts/scrub-internal-ids.py:204 | lines are split at newlines only, and only the last may lack one |
| `ScrubFile.UniversalNewlines` | scripts/scrub-internal-ids.py:204 | CR LF and a lone CR are each read as one newline, other text as it is |
| `ScrubFile.RelexFile` | scripts/scrub-internal-ids.py:201-217 | reading the written file back finds the scrubbed tokens of the original line by line exactly when every line is safe and an unended last line does not vanish |
| `ScrubFile.FileSyntaxKept` | scripts/scrub-internal-ids.py:15-16 | after a safe rewrite every line keeps its delimiters, its code and opaque text and the state it carries on |
| `ScrubFile.ChecksClean` | scripts/scrub-internal-ids.py:232-250 | the reported count is zero exactly when the rewrite changes no line, which is what `--check` gates on |
| `ScrubFile.IdentityKeepsFile` | scripts/scrub-internal-ids.py:201-217 | a scrub that changes nothing gives the text back; the raw bytes exactly when they hold no carriage return |
| `ScrubFile.SecondRunIsQuiet` | scripts/scrub-internal-ids.py:201-217 | with an idempotent scrub, a second run over a safely rewritten file reports and changes nothing |
| `AiSerialize.SerializeBackendTls` | src/types/backend_tls.ts:104-119 | blank texts, an off verification flag and everything off the re-encrypting leg are dropped; texts travel trimmed; retired members stay |
| `AiSerialize.SerializePolicies` | src/types/ai_gateway.ts:604-625 | a policy, its JWT profile, the hash and the prefix hash travel only when set, the profile only next to a JWT policy |
| `AiSerialize.SerializeTuning` | src/types/ai_gateway.ts:628-634 | ring tuning travels only under a ring selector, and only what has a value |
| `AiSerialize.SerializeTopology` | src/types/ai_gateway.ts:635-648 | what a plain, a single-role and a P/D rule leave out |
| `AiSerialize.SerializeEngine` | src/types/ai_gateway.ts:650-653 | what each engine leaves out |
| `AiSerialize.SerializeFullproxy` | src/types/ai_gateway.ts:604-659 | the fullproxy steps together |
| `AiSerialize.SerializeAdmission` | src/types/ai_gateway.ts:559-572 | admission members travel only with a pool and a value, the P/D ones only on a P/D rule |
| `AiSerialize.SerializeStrictProfile` | src/types/ai_gateway.ts:756-767 | profile and API mode travel only on a KV-exact rule that names a profile |
| `AiSerialize.SerializeArguments` | src/types/ai_gateway.ts:580-662 | the chain of deletions leaves exactly the arguments of one declarative wire contract, in their wire form |
| `AiSerialize.SerializeRule` | src/types/ai_gateway.ts:580-662 | the same for the whole rule, endpoint roles and NIXL ports included |
| `AiSerialize.ContextSerialized` | src/types/ai_gateway.ts:226-236 | what the serialised rule branches on: off fullproxy nothing AI is left, and a single-role llama.cpp rule has become a plain one |
| `AiSerialize.SerializedIdempotent` | src/types/ai_gateway.ts:580-662 | serialising twice is serialising once, for every rule |
| `WireContract.TruthyExactly` | src/types/ai_gateway.ts:126 | a JavaScript value is falsy exactly when it is undefined, null, NaN, false, zero or the empty text |
| `WireContract.AdmissionSent` | src/types/ai_gateway.ts:124-127 | every admission member with a value is read back as it was from a fullproxy rule that streams, that disaggregates, or that declares a credential policy other than disabled, the P/D ones from a P/D rule; none is from any other rule |
| `WireContract.KvSent` | src/types/ai_gateway.ts:635-653 | the KV members are read back exactly from a rule that routes on KV events with an engine that takes them |
| `WireContract.PdSent` | src/types/ai_gateway.ts:635-648 | the P/D members exactly from a P/D rule, the bootstrap port with SGLang |
| `WireContract.HashSent` | src/types/ai_gateway.ts:618-634 | the prefix hash exactly with a value, the ring tuning besides only under selectors 8 and 10 |
| `WireContract.PolicySent` | src/types/ai_gateway.ts:604-617 | a set policy, and a set JWT profile next to one of the two JWT policies |
| `WireContract.ProfileSent` | src/types/ai_gateway.ts:756-767 | profile and API mode exactly from a rule that routes on KV events and names a profile |
| `WireContract.PlainSent` | src/types/ai_gateway.ts:580-662 | every other member of a fullproxy rule as it was |
| `WireContract.ReadOnlyNeverSent` | src/types/ai_gateway.ts:116 | the three read-only members never |
| `WireContract.OffFullproxyDrops` | src/types/ai_gateway.ts:588-595 | off fullproxy no AI setting, breaker or ring tuning |
| `WireContract.OffFullproxyKeeps` | src/types/ai_gateway.ts:588-595 | and every member no rule names |
| `WireContract.TlsSent` | src/types/backend_tls.ts:104-119 | the TLS texts trimmed, not blank, and on the re-encrypting leg only |
| `WireContract.VerificationSent` | src/types/backend_tls.ts:104-119 | the TLS object with verification only as `true`, only when on, only on that leg, and not at all when nothing is left of it |
| `WireContract.EndpointsSent` | src/types/ai_gateway.ts:635-648 | roles from a fullproxy P/D rule, NIXL ports from one with vLLM, everything else of an endpoint always |
| `AiValidate.Validate` | src/types/ai_gateway.ts:354-516 | the validator reports an issue exactly when the rule raises it |
| `AiLimits.AdmissionNumberRefused` | src/types/ai_gateway.ts:533-542 | on a rule with a pool an admission number is refused exactly when it has a value that is no whole number from 0 to the maximum of its field |
| `AiLimits.RingNumberRefused` | src/types/ai_gateway.ts:411-420 | the load factor is a whole number from 100 to 300 and the replication one from 1 to 1024 |
| `AiLimits.FlagsRefused` | src/types/ai_gateway.ts:406-408 | the hash flags one from 0 to 255 |
| `AiLimits.PdNumberRefused` | src/types/ai_gateway.ts:438-444 | the prefill timeout one from 0 to 3600, the cache threshold one from 0 to 100, session TTL and balance threshold any |
| `AiLimits.CacheSaltIsBit3` | src/types/ai_gateway.ts:425 | the salt test is the bitwise `flags & 8` |
| `AiLimits.CacheSaltRefused` | src/types/ai_gateway.ts:421-427 | a ring rule that requires the salt is refused for its flags exactly when they are not 0 and `flags & 8` is |
| `AiLimits.FanOutRefused` | src/types/ai_gateway.ts:471-480 | a rank fan-out is refused exactly when the port of some rank is no TCP port |
| `AiLimits.HashRefused` | src/types/ai_gateway.ts:456-458 | a set hash is refused exactly when it is none of the engine's |
| `AiLimits.LevelRefused` | src/types/ai_gateway.ts:403-405 | a numeric prefix hash level exactly when it is none of 1, 2 and 3 |
| `AiLimits.OffFullproxyRefused` | src/types/ai_gateway.ts:362-376 | off fullproxy a rule is refused exactly when an AI setting is neither absent, blank, off nor a default of the form or the gateway |
| `AiValidate.EngineSatisfied` | src/types/ai_gateway.ts:482-496 | nothing an engine cannot take is left on the wire |
| `AiValidate.SerializingAddsNoIssue` | src/types/ai_gateway.ts:327-662 | every issue of the wire body is an issue of the draft, so a valid draft stays valid |
| `AiValidate.RecreateKeepsBreaker` | src/types/ai_gateway.ts:249-266 | recreating a fullproxy rule from its seeded readback keeps the circuit breaker; without the seed it is switched on exactly for a P/D rule that had it off |
| `BackendTls.ValidateBackendTls` | src/types/backend_tls.ts:76-93 | the issues pushed are exactly those the request raises |
| `BackendTls.SerializingKeepsTlsIssues` | src/types/backend_tls.ts:104-119 | the wire body raises exactly the backend TLS issues of the draft |
| `Bits.AndMask` | src/types/network_prefix.ts:33-36 | `n & (((1 << k) - 1) << j)` rounds `n` down to a multiple of 2^j |
| `Bits.MaskIsRounding` | src/types/network_prefix.ts:33-36 | masking unit by unit is rounding the whole address down to a multiple of 2^(width - bits) |
| `NetworkPrefix.ExpandRecovers` | src/types/network_prefix.ts:17-21 | expanding the host text recovers the eight units whichever zero run was compressed (section 2.2 of RFC 4291) |
| `NetworkPrefix.NetworkPrefixKey` | src/types/network_prefix.ts:4-38 | the key of a text is the canonical text of the prefix it denotes; there is none exactly when it denotes none |
| `NetworkPrefix.V4Exactly` | src/types/network_prefix.ts:9-12 | an IPv4 text is accepted exactly when it is the dotted text of four octets without leading zeros |
| `NetworkPrefix.DenotesExactly` | src/types/network_prefix.ts:4-26 | a text has a key exactly when, trimmed, it is an accepted address, alone or with one `/` and a decimal length of at most 32 or 128 |
| `Text.TrimCuts` | src/types/network_prefix.ts:6 | trimming takes away the white space at both ends and nothing else |
| `Bits.ValueOfDigits` | src/types/network_prefix.ts:37 | an address below 2^width is recovered from the units its key spells |
| `NetworkPrefix.KeyTextInjective` | src/types/network_prefix.ts:37 | family, units and length can be read back from the key text |
| `NetworkPrefix.SameKeyIffSamePrefix` | src/types/network_prefix.ts:1-38 | two accepted texts have the same key exactly when they denote the same prefix |
| `NetworkPrefix.MappedNumber` | src/types/network_prefix.ts:29-32 | the unit-by-unit IPv4-mapped test is a test on the whole address, and the four bytes spell its low half |
| `NetworkPrefix.MappedText` | src/types/network_prefix.ts:28-32 | `::ffff:a.b.c.d/(96 + k)` denotes what `a.b.c.d/k` denotes |
| `Session.PurgeStore` | src/session/session.ts:153-164 | the scan leaves exactly the entries that are not residue, and the entry under the empty key |
| `Session.PurgedExactly` | src/session/session.ts:153-164 | entry by entry: one stays, as it was, exactly when it is under the empty key or is neither the token, the persisted cache, a series cache nor a value that embeds the token |
| `Session.PurgedClean` | src/session/session.ts:145-164 | a purged store is clean exactly when the value under the skipped empty key holds no token |
| `Session.EmptyKeySkipped` | src/session/session.ts:153-164 | an input for it: the token under the empty key stays |
| `Session.TargetUnderRoot` | src/session/session.ts:115-126 | root + stored target is the path without its fragment exactly when the page was served under the root |
| `Session.RedirectRestores` | src/pages/LoginPage.tsx:82 | after the login the page goes back to where the operator was exactly when, besides, the address of the login page does not contain the stored target |
| `Session.HostNamedLikeRoute` | src/common.ts:243-246 | an input that stays on the login page: `/user` on the host `user.example` |
| `Session.RedirectIsLocal` | src/session/session.ts:94-126 | the stored target is a protocol-relative URL exactly when the root is followed by two slashes |
| `Session.RedirectWitnesses` | src/session/session.ts:115-126 | inputs for both: a page outside the root, and two slashes after the root |
| `Session.RememberedExactly` | src/session/session.ts:115-126 | a path is remembered exactly when it is local, not protocol-relative, and off the root leads neither to the login nor to the landing page, with or without a query string or fragment |
| `Session.TearsDownOnce` | src/session/session.ts:166-193 | however calls, purge awaits and anything else interleave, a stretch without `beginSession` starts the body at most once |
| `Session.NavigatesPerStart` | src/session/session.ts:189-230 | over any run navigations and waiting bodies never outnumber the bodies started |
| `Session.BodyCompletes` | src/session/session.ts:189-229 | whatever else a run interleaves, a waiting body reaches its end once as many of its waits have settled, well or badly, as purges are registered by then |
| `Session.TeardownCompletes` | src/session/session.ts:189-229 | a call on a live session runs its teardown to the end in every such run, with the token stored at the call; at once without purges |
| `Session.WaitsForPurges` | src/session/session.ts:198-208 | and not before: the body waits while fewer of its waits have settled than purges were registered |
| `Session.SparedExactly` | src/session/session.ts:166-211 | a session whose token is stored is left alone by the teardowns still under way exactly when there are none |
| `Session.LateBodyTakesNewToken` | src/session/session.ts:166-211 | an input for it: a login while an earlier teardown waits loses its token |
| `Session.FinishClean` | src/session/session.ts:211-220 | after a body finishes both stores are clean of its token exactly when the empty key, the reason and the remembered route carry none and a scan that threw spared no residue |
| `Session.FinishKeeps` | src/session/session.ts:145-164 | the scan, broken off or not, removed nothing but residue, and only the two notes were written |
| `Session.FinishScrubs` | src/session/session.ts:211-212 | after a body whose scan did not throw, no entry under a non-empty key is the token, the persisted cache or a series cache, none but the two notes embeds the token, and every entry with none of the four marks is as it was |
| `Session.FinishNotes` | src/session/session.ts:212-218 | and the notes say why the session ended and where it was |
| `Session.FinishNavigates` | src/session/session.ts:220-223 | it then hands over to the caller's navigation, or goes to the login page unless it is there |
| `Session.EveryNavigationIsClean` | src/session/session.ts:193-229 | in every interleaving, with the token read, the scan, the notes and the callback free to throw, all navigations found both stores clean exactly when every step that navigated was careful |
| `Session.EveryNavigationIsHarmless` | src/session/session.ts:193-229 | the same entry by entry: in every run all entries at all navigations carry none of the four marks exactly when every step that navigated was careful |
| `Session.GivingUpIsUnclean` | src/session/session.ts:224-229 | a body that cannot read the token takes the last resort over a stored token |
| `SessionWatch.IdleEndsOnceAndNotEarly` | src/session/useSessionWatch.ts:36-56 | the idle end happens at most once and not before the last handled activity plus the limit of sessionPolicy.ts |
| `SessionWatch.ArmedExactly` | src/session/useSessionWatch.ts:45-59 | over any run the one idle timer of a live watcher is pending, due at the current deadline, exactly when it has not lapsed since the last step that armed it |
| `SessionWatch.AlwaysArmed` | src/session/useSessionWatch.ts:45-56 | in particular while the stored token is unchanged |
| `SessionWatch.FiringEnds` | src/session/useSessionWatch.ts:36-51 | a pending idle timer that fires in a live session ends it |
| `SessionWatch.ExpiresOnceAndNotEarly` | src/session/useSessionWatch.ts:74-85 | in any run the session expires at most once: at the mount for an unreadable token, or else at exactly the step in which the timer fires in an owned session, no earlier than the lifetime |
| `SessionWatch.TokenAwayAndBack` | src/session/useSessionWatch.ts:45-59 | an input that lapses: the token goes away, the page turns visible, the token comes back |
| `SessionWatch.EndsOnlyItsOwn` | src/session/useSessionWatch.ts:35-77 | no timer armed for one token ends a session stored under another, and a logout is followed only with an empty store |
| `SessionWatch.StorageFollows` | src/session/useSessionWatch.ts:61-72 | in any run a change of the token key logs out over an empty store, reloads over another session and does nothing over its own |
| `Percent.Utf8RoundTrip` | src/types/lb_identity.ts:55 | the UTF-8 bytes of any text decode to it |
| `Percent.DecodeEncode` | src/types/lb_identity.ts:55-74 | component and form encoding decode to the text, for arbitrary text |
| `Percent.Utf8Bits` | src/types/lb_identity.ts:55 | the bytes of a character are those of section 3 of RFC 3629 |
| `Percent.EncodeOne` | src/types/lb_identity.ts:55-73 | letters, digits and the marks of the style stand for themselves, a space in a form is `+`, every other character is the upper-case escapes of its bytes |
| `Percent.EncodeConcat` | src/types/lb_identity.ts:55-73 | and a text is encoded character by character |
| `LbIdentity.ParseBuildPath` | src/types/lb_identity.ts:57-74 | a parser recovers from the delete path every component it carries |
| `LbIdentity.RouteText` | src/types/lb_identity.ts:57-74 | the path is the tuple-delete route, segment names, parameter names and order written out |
| `LbIdentity.SamePathIffSameKey` | src/types/lb_identity.ts:57-74 | two keys share a path exactly when they share every component it carries |
| `LbIdentity.SameRouteIffSameTuple` | src/types/lb_identity.ts:41-74 | two rules share a delete path exactly when they share the tuple; path qualifiers count only next to a host, the range only above the port |
| `LogPaging.LiveTailIsPolling` | src/hooks/useInstanceLogPaging.ts:110-143 | whatever the handlers captured, the Live switch equals the polling flag and polling follows no cursor |
| `LogPaging.LoadedIsTheScan` | src/hooks/useInstanceLogPaging.ts:66-117 | over every run the loaded lines are the pages of the current scan in order and the scanned bytes their sum; no page of that scan is skipped, doubled or of another instance, keyword, file or reload exactly when none was appended under a cursor at which the scan did not go on |
| `LogPaging.AdriftExactly` | src/hooks/useInstanceLogPaging.ts:98-156 | a handler sets the scan adrift exactly when it is a load-more whose captured cursor is not where the scan goes on, or another instance chosen under a cursor |
| `LogPaging.ExpectedRunsChain` | src/hooks/useInstanceLogPaging.ts:66-156 | a run without such steps, with each cursor served once, keeps the invariant, so its scan skips and doubles nothing |
| `LogPaging.CurrentIsExpected` | src/hooks/useInstanceLogPaging.ts:110-117 | a load-more with current values is such a step exactly when it goes ahead over lines of an instance no longer chosen |
| `LogPaging.AdriftBreaks` | src/hooks/useInstanceLogPaging.ts:66-86 | the page that answers a scan adrift breaks it |
| `LogPaging.InstanceUnderCursor` | src/hooks/query/instanceHook.ts:38 | an input: another instance chosen under a cursor has its page appended to the lines of the first |
| `LogPaging.LoadMoreAppends` | src/hooks/useInstanceLogPaging.ts:66-117 | loading more with current values over the lines of the current instance continues the scan at its end and keeps the invariant |
| `LogPaging.RewindReplaces` | src/hooks/useInstanceLogPaging.ts:94-156 | every rewind keeps the lines and clears the cursor, and asks for a page exactly when it changes the key; that page replaces the lines. A keyword that asks for none leaves no load-more that goes ahead |
| `LogPaging.SecondDeliveryDoubles` | src/hooks/useInstanceLogPaging.ts:66-74 | a second response object under one cursor doubles the page |
| `LogPaging.AsksForTheChoices` | src/hooks/useInstanceLogPaging.ts:98-156 | in every run the key asks for the instance, the keyword and the file chosen last |
| `LogPaging.ShownOfPages` | src/hooks/useInstanceLogPaging.ts:66-156 | in every run "more" and the next cursor are those of the page applied last, none after a rewind, and the size is the one reported last |
| `LogPaging.OneLoadAtATime` | src/hooks/useInstanceLogPaging.ts:88-117 | a load-more holds back the next one until its page or the end of a failed fetch comes |
| `Heartbeat.FirstSeenIsRunStart` | src/observability/auditWriter.ts:204-208 | the track is the start of the maximal run of the current value, and says whether any other value was read before |
| `Heartbeat.ShownExactly` | src/observability/auditWriter.ts:226-233 | what is shown by the readings: unknown exactly without a beat, and from the first sight of the last one never, a stall, an advance exactly when two different beats were read, or watching |
| `Heartbeat.StalledIsUnchanged` | src/observability/auditWriter.ts:226-233 | a stall of `sinceMs` means one beat read that long ago and no other since |
| `Heartbeat.BeatingExactly` | src/observability/auditWriter.ts:204-233 | for a writer beating at least every 30 s a run of equal beats is shorter than a beat and the read delay, and a stall is shown exactly when it and the beatless snapshots since exceed two beats and the cadence |
| `Heartbeat.BeatingNeverStalls` | src/observability/auditWriter.ts:56-57 | so it is never stalled in a snapshot that carries its beat, even read up to a beat and a poll late |
| `Heartbeat.MissingReadingsStall` | src/observability/auditWriter.ts:204-233 | snapshots that stop carrying the family make a beating writer look stalled |
| `Heartbeat.StoppedIsReported` | src/observability/auditWriter.ts:220-231 | a writer that stops is reported within two beats, the cadence and one further poll of the first sight of its last value |
| `Heartbeat.StoppedNotEarly` | src/observability/auditWriter.ts:226-231 | and exactly when the span exceeds two beats and the cadence |
| `Rates.IntegralTelescopes` | src/observability/rates.ts:36-48 | rate times interval over consecutive ok steps sums to the growth of the counter |
| `Rates.RateExactly` | src/observability/rates.ts:36-48 | there is a rate exactly between two finite points that are in order, near enough and not falling, and it is their growth per second |
| `Rates.NoRateBecause` | src/observability/rates.ts:41-46 | and which of the four obstacles is told otherwise |
| `Rates.RingIsSuffix` | src/observability/rates.ts:59-64 | the ring is the last `capacity` points of the deduplicated stream; a capacity of 0 bounds nothing |
| `Rates.AggregateSum` | src/observability/selectors.ts:43-56 | the sum of the finite samples, none when there is not one, with both counts |
| `Rates.DisjointRatesAdd` | src/observability/snapshotRates.ts:170-195 | ok rates of two disjoint selections add up exactly to the rate of their union |
| `Rates.PartitionAddsUp` | src/observability/snapshotRates.ts:170-195 | a predicate and its complement, both ok, add up to the whole family |
| `Rates.NothingMatched` | src/observability/snapshotRates.ts:155-195 | where the family is in both snapshots and nothing matches the rate is 0, where it is missing nothing is known |
| `SnapshotRates.GroupSamples` | src/observability/snapshotRates.ts:72-95 | each group holds exactly the matching samples of its key in order under the grouping labels of the first, keys are distinct and come in the order of their first samples, no sample is left out |
| `SnapshotRates.SameGroupExactly` | src/observability/snapshotRates.ts:39-43 | two samples share a group exactly when they agree on every grouping label, if no value holds a NUL |
| `SnapshotRates.NulCollides` | src/observability/snapshotRates.ts:39-43 | an input with one: two label sets that differ share a key |
| `SnapshotRates.GroupsConserve` | src/observability/snapshotRates.ts:72-95 | the groups add up to the selection |
| `SnapshotRates.GroupRates` | src/observability/snapshotRates.ts:105-129 | one entry for each key in that order, with its labels, its sum and the rate between the two newest snapshots |
| `SnapshotRates.FamilySumRate` | src/observability/snapshotRates.ts:142-152 | the one group of an empty grouping is the whole selection; a family missing from a healthy snapshot is absent, with the reading the manifest gives |
| `SnapshotRates.GroupRatesAddUp` | src/observability/snapshotRates.ts:105-152 | group rates that are all ok and cover both snapshots add up to the family rate |
| `SnapshotRates.SumRateVersusPartition` | src/observability/snapshotRates.ts:154-169 | the two readings agree when both snapshots have a match; otherwise the family reading waits |
| `AiRequests.ErrorRatio` | src/observability/aiRequests.ts:94-134 | with two outcomes and no decreasing subset offered is completed and denied, and the error ratio is (denied + failed) / offered in [0, 1] |
| `AiRequests.ErrorFrom400` | src/observability/aiRequests.ts:79-85 | a numeric status is an error exactly from 400 on |
| `AiRequests.SelectionsAre` | src/observability/aiRequests.ts:87-131 | which samples each rate is of, by the labels `outcome` and `status` |
| `AiRequests.ToldExactly` | src/observability/aiRequests.ts:120-134 | outcomes are told exactly when a sample of the newest exposition of the family says its outcome |
| `DashboardLayout.StackRows` | src/pages/dashboardLayout.ts:52-60 | every card stands at the exact end of the rows above it, and the layout ends at the start plus the sum of all heights |
| `DashboardLayout.RowsTouch` | src/pages/dashboardLayout.ts:52-60 | a row reaches exactly down to the next: no vertical gap |
| `DashboardLayout.Reconcile` | src/pages/dashboardLayout.ts:153-185 | the loops compute the reconciled layout the lemmas below are about |
| `DashboardLayout.EachKeyOnce` | src/pages/dashboardLayout.ts:153-185 | every default key is in the result exactly once, and nothing else is |
| `DashboardLayout.FirstGeometryKept` | src/pages/dashboardLayout.ts:160-170 | the first valid saved geometry of every wanted card survives |
| `DashboardLayout.AddedOverlapNothing` | src/pages/dashboardLayout.ts:176-183 | an added card lies below every card before it and overlaps none |
| `DashboardLayout.ReconcileIdempotent` | src/pages/dashboardLayout.ts:153-185 | reconciling the result again gives it back with changed = false |
| `DashboardLayout.ChangedIffDifferent` | src/pages/dashboardLayout.ts:126-130 | `changed` says exactly that the result differs from what was saved |
| `FullproxyReplace.ReplaceableChanges` | src/types/lb_fullproxy_replace.ts:136-143 | a blanked admission choice becomes `inherit`, a blanked admission number is no change, everything else is carried |
| `FullproxyReplace.BlanksCarried` | src/types/lb_fullproxy_replace.ts:113-143 | the three choices blank to `inherit`, the ten numbers to nothing; other members and values are as the form gave them |
| `FullproxyReplace.BodyCarries` | src/types/lb_fullproxy_replace.ts:162-173 | the body is the rule as read without the five derived members, and the patch over it |
| `RuleWire.CleanNegativeNumbers` | src/connector/instance/load_balancer.ts:22-42 | negative numbers are left out, at any depth |
| `RuleWire.SentExactly` | src/connector/instance/load_balancer.ts:88-118 | each argument is sent exactly when it travels, is not negative, belongs to no probe of an unmonitored rule and is no inert client-certificate policy; what is sent depends on its own value and the context only |
| `RuleWire.NamedSent` | src/connector/instance/load_balancer.ts:88-103 | a member no rule names is sent unless it is negative, the six of the probe only with `monitor` on |
| `RuleWire.FrontendSent` | src/connector/instance/load_balancer.ts:105-115 | the client-certificate policy only with a mode other than `disabled` |
| `RuleWire.SerializeCreateBody` | src/connector/instance/load_balancer.ts:88-118 | the posted rule is the serialised one after these steps, endpoints included |
| `FullproxyReplace.EditIsExact` | src/types/lb_fullproxy_replace.ts:154-177 | through the whole path to the wire: an unedited stored member is unchanged exactly when it is still sent as something stored as it was, or not sent and kept; an edited one is what the gateway makes of what is sent, or, not sent, what it was if kept and nothing otherwise |
| `FullproxyReplace.ListsSaved` | src/types/lb_fullproxy_replace.ts:171-176 | a list the edit leaves alone is sent as read, endpoints without their observed state and as the edited rule sends them |
| `FullproxyReplace.UntouchedLost` | src/types/lb_fullproxy_replace.ts:154-160 | of what an edit does not name, exactly the members are lost that stop travelling and that the gateway does not keep |
| `FullproxyReplace.UntouchedSurvive` | src/types/lb_fullproxy_replace.ts:154-160 | an edit after which every stored member still travels loses nothing it does not name |
| `FullproxyReplace.SelectorEditLosesRing` | src/types/ai_gateway.ts:626-634 | moving off the consistent-hash selectors loses the ring tuning the edit does not name, unless the gateway keeps it |
| `FullproxyReplace.PolicyEdit` | src/types/ai_gateway.ts:600-604 | a blanked credential policy leaves the stored one as it was, so the rule is without a policy after the save exactly when it was before; any other policy is sent |
| `FullproxyReplace.PolicyStays` | src/components/input/subforms/AIGatewaySettingsForm.tsx:41-48 | an input: a rule that requires a key still does after the blank is saved |
| `FullproxyReplace.BlankMeans` | src/types/lb_fullproxy_replace.ts:122-143 | blanking an admission member: on a rule with a pool a choice goes back to what the gateway inherits; everything else is left as it was |
| `FullproxyReplace.DisjointEditsCommute` | src/types/lb_fullproxy_replace.ts:154-177 | two edits of different members, each on a fresh read and neither changing what the serialiser branches on, both survive and commute |
| `FullproxyReplace.OrderDecides` | src/types/ai_gateway.ts:626-634 | others need not: ring tuning saved before the move onto the ring is dropped, after it stored |
| `FullproxyReplace.StaleReadReverts` | src/types/lb_fullproxy_replace.ts:158-160 | the reason for the fresh read: built on an older one, an edit puts back what that had of every member it does not name |
| `AuditPolicy.PrintedNumber` | src/types/audit_config.ts:113-120 | printing a number and parsing it gives it back exactly within bounds |
| `AuditPolicy.ParsePolicyForm` | src/types/audit_config.ts:123-136 | each field is in error exactly when it should be, and without errors every field has its value |
| `AuditPolicy.UntouchedParses` | src/types/audit_config.ts:76-136 | a readback saved untouched parses exactly when it is a policy the gateway can hold |
| `AuditPolicy.UntouchedDiffsToNothing` | src/types/audit_config.ts:139-143 | and what it sends differs in nothing from the readback |
| `AuditSink.ParseShared` | src/types/audit_config.ts:235-257 | the errors of the fields both sinks share and the values written |
| `AuditSink.UntouchedCompliance` | src/types/audit_config.ts:199-263 | a compliance sink saved untouched parses and diffs to nothing exactly when the readback is enabled and canonical |
| `AuditSink.ParseNamedSinkForm` | src/types/audit_config.ts:265-292 | every error of the named form, and a body exactly when there is none |
| `AuditSink.ServicesRoundTrip` | src/types/audit_config.ts:211-221 | the services list survives printing and parsing exactly when every entry is a trimmed, non-empty, comma-free name |
| `AuditSink.UntouchedNamed` | src/types/audit_config.ts:211-327 | a named sink with a filter saved untouched parses and diffs to nothing exactly when its name is legal and the readback canonical |
| `StableHash.GetStableHash` | src/common.ts:13-20 | the loop computes the base-31 polynomial modulo 2^32, every intermediate within exact double range |
| `StableHash.HashConcat` | src/common.ts:13-20 | hash(s + t) = hash(s) * 31^|t| + hash(t) modulo 2^32 |
| `MenuState.ToggleMenuState` | src/hooks/menuHook.ts:53-93 | the new state key by key: prefixes opened, siblings and everything known under them closed, or the key and everything under it closed |
| `MenuState.SiblingsExactly` | src/hooks/menuHook.ts:34-46 | the siblings of a path are the named items beside its last one, other than that |
| `MenuState.OpenPath` | src/hooks/menuHook.ts:64-84 | opening: the prefixes of the key are set, then every sibling and every known key under one is cleared |
| `MenuState.ClosePath` | src/hooks/menuHook.ts:85-89 | closing clears the key and every known key under it |
| `MenuState.ReachableKeepsPrefixes` | src/hooks/menuHook.ts:53-93 | in every state reached by closing any path and opening paths no sibling hides, an open key has all its segment prefixes open |
| `MenuState.OpeningExactly` | src/hooks/menuHook.ts:64-84 | from any such state, opening keeps the prefixes open and leaves the target, the key without its empty segments, open exactly when no sibling is the target or a segment prefix of it |
| `MenuState.PathOpensExactly` | src/hooks/menuHook.ts:64-84 | a closed path asked to open is itself open, with every prefix open, exactly when it also has no empty segment |
| `MenuState.PlainNamesAllowed` | src/hooks/menuHook.ts:29-51 | where no name contains a slash, no sibling ever hides a path |
| `MenuState.PlainMenusKeepPrefixes` | src/hooks/menuHook.ts:53-93 | so there every reachable state has the prefixes of its open keys open |
| `MenuState.OpeningClosesSiblings` | src/hooks/menuHook.ts:64-84 | after opening a real path it is open and neither a sibling nor anything under one is |
| `MenuState.HidingSibling` | src/hooks/menuHook.ts:64-84 | an input that fails: in a table with `a` and `a/b`, opening `a/b` leaves it open under the closed `a` |
| `FormDefaults.MergeIdempotent` | src/hooks/inputFormHook.ts:178-186 | merging the same defaults again changes nothing |
| `FormDefaults.LeafKept` | src/hooks/inputFormHook.ts:176-186 | a defined leaf of the form is never altered |
| `FormDefaults.GapFilled` | src/hooks/inputFormHook.ts:176-186 | a gap takes its default whenever there is one |
| `FormDefaults.FormIsFold` | src/hooks/inputFormHook.ts:230-265 | whatever renders, effects and resets come between, the form is at every point the fold of all writes and resets exactly when no write builds on something that differs from the form outside what it writes |
| `FormDefaults.CurrentExactly` | src/hooks/inputFormHook.ts:237-265 | what a write builds on is the form after a write, after an effect exactly when it carries the form as it is, after a reset only when that changes nothing |
| `FormDefaults.TimelyRunsFold` | src/hooks/inputFormHook.ts:230-265 | a run whose writes all find the mirror current ends with the fold of all of them |
| `FormDefaults.BurstIsFold` | src/hooks/inputFormHook.ts:230-265 | so does any burst of writes of both kinds before a re-render |
| `FormDefaults.LateEffectLosesWrite` | src/hooks/inputFormHook.ts:238-240 | an input that loses a write: the effect of an earlier render runs between two writes |
| `FormDefaults.FormState.HandleChange` | src/hooks/inputFormHook.ts:242-255 | one write lays its member, converted to a number for an integer field, over the mirror, or over the rendered form before there is one |
| `FormDefaults.FormState.HandleObjectChange` | src/hooks/inputFormHook.ts:257-265 | one write of several members, likewise |
| `FormDefaults.FormState.ResetForm` | src/hooks/inputFormHook.ts:213-220 | a reset builds on the form and leaves the mirror alone |
| `FormDefaults.FormState.RunSyncEffect` | src/hooks/inputFormHook.ts:238-240 | the effect copies the form of its render to the mirror |
| `FormDefaults.LastWriteDecides` | src/hooks/inputFormHook.ts:230-265 | in the fold the last write to a member decides it |
| `FormDefaults.UnwrittenKept` | src/hooks/inputFormHook.ts:230-265 | and a member no write names keeps its value |
| `Priority.PriorityChangedFields` | src/types/ai_priority.ts:115-124 | the members sent are those that differ from the identity as read |
| `Priority.ListRoundTrip` | src/types/ai_priority.ts:51-60 | printing a list of names and reading it back gives the list |
| `Priority.ChangeReachesDraft` | src/types/ai_priority.ts:115-124 | applying the change to the identity gives the draft |
| `Priority.NothingIffSame` | src/types/ai_priority.ts:115-124 | the change is empty exactly when the draft says what the identity has |
| `Priority.UntouchedSendsNothing` | src/types/ai_priority.ts:83-124 | an untouched draft sends nothing exactly when the stored objective has no white space around it |
| `TenantLimits.ReconcileTenantModelLimits` | src/types/ai.ts:61-81 | the current rows followed by one zero row for each persisted model they no longer show |
| `TenantLimits.UpsertLeavesCurrent` | src/types/ai.ts:52-81 | after the upsert exactly the current rows with a non-zero limit are left |

## Left out

- The identifier patterns and tidying inside `_scrub_segment`: the scrub is an arbitrary function with stated conditions.
- The WHATWG URL host parser and its normalisation: a parameter that yields a valid eight-unit host or an error.
- Lone surrogates: Dafny characters are Unicode scalar values, so `encodeURIComponent`'s error on them has no counterpart.
- `Number(text)` for exponents, signs, fractions and other bases in rule fields: only decimal numerals, blanks, booleans and numbers convert.
- Rule fields of types the form cannot produce: engine names are the four the form offers or unset, and backend TLS texts are strings.
- IEEE rounding of layout coordinates, counters and rates: real numbers are used.
- Messages and fields of validation issues: an issue is a constructor, and duplicates of one issue are not counted.
- Sink losses, denial totals from reason families and the flat projection.
- `parseJwtExp` and the browser's limit on timer delays: the expiry timer may be due at any time.
- Quota handling of browser storage: a write that throws ends the body as any other error does.
- A navigation callback that throws counts as a navigation: what it found is what matters.
- `Number(value)` of a form field: a parameter of the form mirror.
- The validators run before a save is posted: the save lemmas are about bodies that go out. `projectOntoFlavor` is the identity for the gateway.
- How the gateway stores one member may depend on that member only, and the members it keeps on omission are a fixed set that contains the documented ones; a profile it keeps or drops with the policy is either, one save at a time.
- Arrays as rule members: `Val` has objects and scalars, so an array member is an opaque object.
- `planFullproxyReplace` and `changedFullproxyIdentity`: each is settled by reading one branch.
- Validators of priority drafts and tenant limits, warnings, password checks, formatters and single-switch classifiers: easy members.
- React rendering, queries and caches, network clients, routing, menus' contents and generated capability tables.
- AiValidate.SerializingAddsNoIssue: states inclusion one way, as the source promises; a draft's issue may disappear because its field is dropped.
