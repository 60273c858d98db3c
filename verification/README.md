# Account configuration and armored-data splitting in Delta Chat core

This project models three pieces of deltachat-core-rust. Each is stated as pure Dafny functions, and each is proved against its intended behaviour:

1. **Candidate expansion** (`src/configure/server_params.rs`).
   - A partially known server descriptor is an `IMAP`/`SMTP` protocol plus a hostname, port, socket security and username, where blank means unknown.
   - Expansion fills in usernames first, then hostnames, then port and socket.
   - The result is an ordered list of fully specified candidates.
2. **One configuration run** (`src/configure/mod.rs`), as `configure` and `inner_configure` perform it:
   - input validation and authentication-flag normalisation;
   - the OAuth2 address;
   - the "no advanced settings" gate;
   - the offline provider record, else the cascade over five online discovery sources, else the user's own fields;
   - the username → hostname → port flat-map pipeline;
   - first-success trials of IMAP and then SMTP candidates;
   - mailbox setup, persistence and key generation;
   - the `progress!` checkpoints, and the final 1000 or 0.
3. **`dc_split_armored_data`** (`src/dc_pgp.rs:22-138`). It reads an ASCII-armored Autocrypt setup block and yields:
   - the header line;
   - the `Passphrase-Begin` and `Autocrypt-Prefer-Encrypt` fields;
   - the base64 payload up to the matching `-----END ` line.

Everything a run asks of the outside world is an input of type `Configuration.Env`:
- the OAuth2 address lookup;
- address parsing to a domain, and URL encoding;
- the provider-database lookup;
- each discovery source's fetch-and-parse result;
- an IMAP and an SMTP connect predicate;
- whether each store or mailbox operation succeeds.

The run becomes a deterministic function of its inputs. It returns a `Run` record: the result, the progress values emitted, whether autoconfiguration was consulted, the number of online fetches, the candidate list, and the number of IMAP and SMTP attempts.

The C-style splitter becomes a function over a string (`None` for a null buffer). Three reading steps stand in for the pointer walk:
- the buffer is cut at its first NUL;
- its carriage returns are removed;
- the rest is read as complete lines followed by an unterminated tail.

A `Requested` flag stands for each output pointer the caller may pass as null.

Modules, in dependency order:
- `Wrappers`, `Text` and `Seqs`: string and sequence helpers standing in for `str::find`, `dc_trim`, `strstr`, `strcasecmp` and iterator `filter`/`flat_map`.
- `Provider`: protocols, sockets and provider records.
- `ServerParamsList`: the three expanders.
- `Autoconfig`: the discovery sources, the cascade and the offline mapping.
- `Progress`: the checkpoints.
- `Configuration`: one run.
- `ConfigureProperties`: properties of whole runs.
- `Armor`, `ArmorProperties` and `ArmorRoundTrip`: the splitter and what is proved about it.

## Model

| member | source | states |
|---|---|---|
| ServerParamsList.ExpandUsernames | src/configure/server_params.rs:28-43 | a known username gives the descriptor unchanged; an unknown one gives the full address, then the part before the first '@' when there is one; every other field is kept |
| ServerParamsList.ExpandHostnames | src/configure/server_params.rs:45-63 | a known hostname gives the descriptor unchanged; an unknown one gives exactly the domain, "imap."/"smtp." + domain by protocol, and "mail." + domain, in that order; protocol, port, socket and username are kept |
| ServerParamsList.ExpandPorts | src/configure/server_params.rs:65-114 | port 0 with SSL gives 993/465; port 0 with STARTTLS or Plain gives 143/587 and keeps the socket; port 0 with Automatic gives STARTTLS on 143/587, then SSL on 993/465; a set port with Automatic gives SSL, then STARTTLS, on that port; otherwise the descriptor is unchanged; every result has a known port and socket |
| ServerParamsList.ExpandUsernamesSettles | src/configure/server_params.rs:31-41 | for a non-empty address not starting with '@', every produced descriptor has a username and expands to itself |
| ServerParamsList.ExpandHostnamesSettles | src/configure/server_params.rs:47-61 | for a non-empty domain, every produced descriptor has a hostname and expands to itself |
| ServerParamsList.ExpandPortsSettles | src/configure/server_params.rs:67-112 | every produced descriptor is fully specified, so expanding it again gives just itself |
| Text.IndexOf | src/configure/server_params.rs:35 | `str::find`: none exactly when the character is absent; otherwise the position of its first occurrence |
| Text.Before | src/configure/server_params.rs:35-36 | `split_at(find(c)).0`: the longest prefix without the character, which is the whole string exactly when the character is absent |
| Autoconfig.AllSources | src/configure/mod.rs:315-350 | exactly five sources with the providers Mozilla, Mozilla, Outlook, Outlook, Mozilla, in that order |
| Autoconfig.AllSourcesShape | src/configure/mod.rs:315-350 | the hosts asked: autoconfig.<domain>, <domain>, <domain>, autodiscover.<domain>, autoconfig.thunderbird.net (whose URL ends with the domain); the first two URLs end with `?emailaddress=<addr>` |
| Autoconfig.AllSourcesQueries | src/configure/mod.rs:332-348 | the last three URLs carry a '?' exactly when the domain contains one, so they never send the address |
| Autoconfig.TrySources | src/configure/mod.rs:374-384 | the sources are fetched in order up to the first success; every earlier fetch failed; the result is that fetch's; none is returned exactly when all fail; the progress values are start, start+10, … one per fetch |
| Autoconfig.GetAutoconfig | src/configure/mod.rs:366-385 | between one and five fetches, reporting 300, 310, … per fetch, the successful one included; the first successful source's answer wins; none is returned exactly when all five fail, after five fetches |
| Autoconfig.LoginName | src/configure/mod.rs:409-418 | EMAIL gives the address; EMAILLOCALPART gives the prefix before the first '@', which equals the address exactly when there is no '@' |
| Autoconfig.GetOfflineAutoconfig | src/configure/mod.rs:387-433 | none exactly when there is no record, the record is BROKEN, or it lists no server; otherwise one descriptor per server, in order, with protocol, host, port and socket copied and the username derived by the pattern |
| Autoconfig.OfflineNautaCu | src/configure/mod.rs:527-533 | a usable two-server record for nauta.cu yields exactly two candidates: imap.nauta.cu for IMAP, then smtp.nauta.cu for SMTP |
| Progress.CheckpointsInRange | src/configure/mod.rs:28-36 | every checkpoint lies strictly between the failure value 0 and the success value 1000 |
| Progress.CascadeStepsAscending | src/configure/mod.rs:374-378 | up to five cascade reports are strictly increasing checkpoints between 300 and 340 |
| Progress.LocatedProgressAscending | src/configure/mod.rs:121-297 | however many fetches were made and however far the trials got, the reports strictly increase, are all checkpoints, start at 1, and end at 940 when every step succeeded |
| Configuration.Validate | src/configure/mod.rs:124-130 | an empty address fails first, then an empty IMAP password; otherwise the input passes unchanged except that an empty SMTP password becomes the IMAP password |
| Configuration.NormalizeAuth | src/configure/mod.rs:133-143 | afterwards the authentication bits are exactly OAUTH2 or exactly NORMAL; OAuth2 mode holds exactly when the bits were OAUTH2 before; all other bits are unchanged |
| Configuration.NormalizeAuthIdempotent | src/configure/mod.rs:133-143 | normalising normalised flags changes nothing |
| Configuration.PrepareAuth | src/configure/mod.rs:132-162 | for validated input, OAuth2 mode reports 10 and 20 and replaces the address by the resolved one; a failing store write fails the run after reporting 10 |
| Configuration.Prepare | src/configure/mod.rs:120-162 | validation and authentication: the conditions under which the run gets past them, the reports so far, and that the server fields and IMAP password come through unchanged |
| Configuration.ExpandServersPerDescriptor | src/configure/mod.rs:196-223 | the three chained flat-maps equal one flat-map of the per-descriptor expansion, so each descriptor's candidates stay together and in input order |
| Configuration.ExpandOneLength | src/configure/mod.rs:220-222 | one descriptor expands to exactly (number of usernames) × (number of hostnames) × (number of port/socket variants) candidates, because each step's count depends only on fields the other steps keep; hence between 1 and 12 |
| Configuration.ExpandOneSpecified | src/configure/mod.rs:220-222 | every candidate keeps the protocol and has a known port and socket; it keeps a given hostname, or gets one when the domain is not empty; it keeps a given username, or else uses the address or its local part |
| Configuration.BlankHostsOrder | src/configure/mod.rs:221-222 | for one username, an otherwise blank descriptor gives the six candidates domain, protocol host and mail host, each with STARTTLS then SSL |
| Configuration.BlankDescriptorOrder | src/configure/mod.rs:216-222 | with an '@' in the address a blank descriptor gives the twelve candidates in this order: all six for the full address, then all six for the local part; ports vary fastest and usernames slowest |
| Configuration.BlankDescriptorNoAt | src/configure/mod.rs:216-222 | without an '@' only the six candidates for the full address are produced |
| Configuration.ExpandServersOfProtocol | src/configure/mod.rs:231-234 | the IMAP (or SMTP) candidates are exactly the expansions of the IMAP (or SMTP) descriptors, in order |
| Configuration.Discover | src/configure/mod.rs:173-192 | autoconfiguration is consulted exactly when no advanced field is set; a usable offline record is used without fetching; otherwise the online cascade runs, and its reports are those of the fetches made |
| Configuration.TryCandidates | src/configure/mod.rs:231-247 | candidates are tried in order; the winner is the first that connects, after which nothing is tried; there is no winner exactly when none connects, after trying all |
| Configuration.Finish | src/configure/mod.rs:272-297 | the run succeeds exactly when folder setup, INBOX selection, both store writes and key generation all succeed; otherwise it stops at the first failure, having reported 910/920/940 only for the steps that passed |
| Configuration.TrialOutgoing | src/configure/mod.rs:249-297 | after an IMAP success: SMTP candidates in order, the first that connects is kept, then the finishing steps; the run fails with the SMTP error exactly when no SMTP candidate connects, and then every SMTP candidate was tried; 750 is always reported |
| Configuration.TrialServers | src/configure/mod.rs:225-300 | the run fails with the IMAP error exactly when no IMAP candidate connects, and then makes no SMTP attempt; past IMAP it fails with the SMTP error exactly when no SMTP candidate connects, after trying them all; on success both settings are the first connecting candidates of their protocol, and the reports follow how far the run got |
| Configuration.Locate | src/configure/mod.rs:165-270 | an unparsable address fails; consultation happens exactly when the address parses and no advanced field is set; at most five online fetches; the reports are 200, the cascade, 500, 600 and the trial checkpoints reached; a success keeps the address and holds settings both servers accepted; past IMAP the SMTP error means no SMTP candidate connects, after trying them all |
| Configuration.Configure | src/configure/mod.rs:120-300 | a successful run got past validation and holds settings both servers accepted; at most five online fetches, and only when consulting; consultation only for valid input without advanced fields; the IMAP error means no SMTP attempt, the SMTP error means every SMTP candidate was tried |
| Configuration.InnerConfigure | src/configure/mod.rs:71-117 | success exactly when the run succeeded and both notice writes succeeded, and then the run's settings with 1000 reported last; a failed run keeps its error unless clearing the notice fails, which gives the store error |
| ConfigureProperties.ValidationComesFirst | src/configure/mod.rs:121-127 | an empty address or IMAP password ends the run after reporting 1, with no lookup, fetch or connection |
| ConfigureProperties.ConsultedIffNoAdvanced | src/configure/mod.rs:173-192 | autoconfiguration is consulted exactly when the input is valid, the address parses and all eight advanced fields are blank; online fetching implies consultation |
| ConfigureProperties.OfflinePreferred | src/configure/mod.rs:184-185 | a usable provider record wins: nothing is fetched and the candidates are the expansion of the record's servers |
| ConfigureProperties.OnlineCascadeUsed | src/configure/mod.rs:186-214 | without a usable record, the first successful online answer supplies the descriptors, or else the user's own fields do |
| ConfigureProperties.AdvancedFieldsUsed | src/configure/mod.rs:190-214 | with any advanced field set, nothing is looked up and the candidates expand the user's IMAP and SMTP fields |
| ConfigureProperties.UserServersPerProtocol | src/configure/mod.rs:196-214 | the fallback list holds exactly one IMAP and one SMTP descriptor, taken from the matching user fields |
| ConfigureProperties.ConfigureProgress | src/configure/mod.rs:121-297 | a run reports 1 first, then strictly increasing checkpoints, and a successful run's last report is 940 |
| ConfigureProperties.NoImapLoginFails | src/configure/mod.rs:231-247 | when no IMAP login can succeed the run fails and no SMTP login is tried |
| ConfigureProperties.NoSmtpLoginFails | src/configure/mod.rs:249-270 | when no SMTP login can succeed the run fails, never with a later step's error; it fails with the SMTP error after trying every SMTP candidate, or earlier without an SMTP attempt |
| ConfigureProperties.EmptyOnlineAnswer | src/configure/mod.rs:379-381 | a first online source that answers with an empty server list ends the cascade; the run then has no candidate and fails the IMAP step without an attempt |
| ConfigureProperties.InnerConfigureOutcome | src/configure/mod.rs:71-117 | the outer call succeeds exactly when the run succeeded and both notice writes succeeded, and then reports 1000; a failed run whose notice was cleared reports 0; a failing notice write ends it with a store error and no final report |
| ConfigureProperties.InnerConfigureProgress | src/configure/mod.rs:105-116 | every report is within 0..1000; a success ends with 1000 after strictly increasing reports; a failure whose notice was cleared ends with 0 |
| Text.Trim | src/dc_pgp.rs:54 | `dc_trim`: the result has no whitespace at either end, and is empty exactly when the input is all whitespace |
| Text.TrimPadded | src/dc_pgp.rs:128 | trimming removes exactly the whitespace around a trimmed non-empty string |
| Text.RemoveChar | src/dc_pgp.rs:49 | `dc_remove_cr_chars`: the character no longer occurs, and every other character keeps its count |
| Text.Find | src/dc_pgp.rs:119 | `strstr`: the position of the first occurrence; none exactly when the pattern does not occur |
| Armor.SplitLines | src/dc_pgp.rs:50-114 | the buffer is cut at its newlines into complete lines and an unterminated tail, which join back to it |
| Armor.SplitJoin | src/dc_pgp.rs:50-114 | splitting undoes joining for lines without newlines |
| Armor.Prepare | src/dc_pgp.rs:49-50 | the text the loop reads has no NUL and no carriage return |
| Armor.FindHeader | src/dc_pgp.rs:53-70 | the header is the first complete line that trims to a header line, and the lines after it are the rest |
| Armor.LastFieldIndex | src/dc_pgp.rs:83-105 | the last line carrying the key, since a later field overwrites an earlier one |
| Armor.PayloadEnd | src/dc_pgp.rs:116-126 | the payload ends at the first "-----END " only when it is followed by the header's text from offset 11; a shorter header never matches |
| Armor.ScanAfterHeader | src/dc_pgp.rs:71-133 | the header is always reported; only requested fields are kept; a payload is produced only on success and only when requested |
| Armor.ScanArmor | src/dc_pgp.rs:50-133 | with no header line nothing is reported; otherwise the found header is |
| Armor.SplitArmoredData | src/dc_pgp.rs:22-138 | a null buffer or header output gives 0 with every output null; success implies a header; a payload is reported only on success and when requested |
| ArmorProperties.CarriageReturnsIgnored | src/dc_pgp.rs:49 | removing carriage returns beforehand changes no output |
| ArmorProperties.StopsAtNul | src/dc_pgp.rs:50 | nothing after the first NUL is read |
| ArmorProperties.SkipsLinesBeforeHeader | src/dc_pgp.rs:53-70 | complete lines in front that do not trim to a header change no output |
| ArmorProperties.NeedsCompleteLine | src/dc_pgp.rs:50-52 | text without a newline is never examined as a line, so nothing is found |
| ArmorProperties.ScanAfterStop | src/dc_pgp.rs:71-133 | whichever line ends the header block, its fields are the lines before it, and with an end line in the payload text the call succeeds with that text, trimmed, up to the end line |
| ArmorProperties.ScanAfterBlank | src/dc_pgp.rs:71-76 | a blank line ends the header block and is dropped: the payload text starts on the next line |
| ArmorProperties.ScanAfterColonless | src/dc_pgp.rs:77-81 | a non-blank line without a colon ends the header block and is kept: the payload text starts with that line |
| ArmorProperties.UnendedHeaderBlockFails | src/dc_pgp.rs:71-82 | without a blank line or a line lacking a colon after the header, the call fails with the header reported and no payload |
| ArmorProperties.MissingEndLineFails | src/dc_pgp.rs:119-126 | without "-----END " in the payload text the call fails |
| ArmorProperties.ScanSucceeds | src/dc_pgp.rs:116-133 | success holds exactly when a line ends the header block and an end line naming the same block follows |
| ArmorProperties.ShortHeaderFails | src/dc_pgp.rs:120-125 | a header shorter than eleven characters never succeeds |
| ArmorProperties.LaterFieldWins | src/dc_pgp.rs:85-104 | of two lines with the same key, the later one's value is reported |
| ArmorRoundTrip.LowerCaseKeyRead | src/dc_pgp.rs:85-92 | field keys are compared ignoring ASCII case: a `passphrase-begin:` line is read as the setup-code field |
| ArmorRoundTrip.FieldsRead | src/dc_pgp.rs:83-105 | the rendered `Passphrase-Begin` and `Autocrypt-Prefer-Encrypt` lines are read back as exactly their values |
| ArmorRoundTrip.ClosingRead | src/dc_pgp.rs:116-131 | a payload followed by the end line for its header ends right before that line and trims back to the payload |
| ArmorRoundTrip.RenderRoundTrip | src/dc_pgp.rs:22-138 | splitting a rendered block (header, both fields, blank line, payload, end line) gives back exactly the header, the requested fields and the payload, with success |

## Left out

- The cancellation race, the single-flight guard and the scheduler check (src/configure/mod.rs:45-69) are left out. They are concurrency; the model starts at `inner_configure`.
- Provider `config_defaults` and the after-login hint (src/configure/mod.rs:78-103) are left out. They are store and chat writes with no effect on the outcome, except that a failing `set_config` there would end the call with an error, which the model does not include.
- Real IMAP and SMTP connections, folder setup, INBOX selection, database writes and key generation are each an input of `Env`: a connect predicate or a success flag. The one `Imap` object reused across IMAP attempts is not modelled; the connect predicate treats every attempt as independent.
- Mozilla and Outlook XML fetching and parsing (src/configure/mod.rs:352-359) are one fetch result per source. The parsers are not part of this model.
- OAuth2 address resolution, `EmailAddress` parsing and `utf8_percent_encode` are inputs of `Env`. The domain parser is a function of the address, so a changed OAuth2 address is parsed anew.
- `certificate_checks`, logging and the `Error` enum (src/configure/mod.rs:480-497) are left out. Errors are the `ConfigureError` constructors; messages are not modelled.
- `progress!` asserts that the value is at most 1000. The model proves all reports lie within 0..1000 instead of modelling a panic.
- `DC_LP_AUTH_OAUTH2`, `DC_LP_AUTH_NORMAL` and `DC_LP_AUTH_FLAGS` are taken as 0x2, 0x4 and 0x6. `server_flags` is an `i32` and is modelled as `bv32`. The constants file is not part of this model.
- `dc_trim` and `dc_remove_cr_chars` are not part of this model. `dc_trim` is taken to strip C `isspace` characters from both ends, and `dc_remove_cr_chars` to delete every carriage return.
- The header test reads the last five characters at `strlen(line) - 5` (src/dc_pgp.rs:61). On a line shorter than five characters that position lies before the line. The model treats such a line as not a header.
- The end-line comparison reads from `headerline + 11` (src/dc_pgp.rs:123-124), which lies past a shorter header's terminator. The model treats such a header as never matching (`ArmorProperties.ShortHeaderFails`).
- `dc_split_armored_data` returns pointers into the buffer it modifies in place. The model returns the strings those pointers denote.
- Key generation, encryption, decryption and hashing in src/dc_pgp.rs:140-360 are left out. They wrap external crates and randomness.
- src/smtp/send.rs and src/lib.rs are left out. They are a network wrapper and module declarations.
- An online source may answer with an empty server list. The first successful answer wins even when it is empty, so a run can end with no IMAP candidate and fail without an attempt (`ConfigureProperties.EmptyOnlineAnswer`).
- When clearing the wrong-password notice fails, `inner_configure` returns the store error without reporting 0 (src/configure/mod.rs:76).
