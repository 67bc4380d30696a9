# bot-vk-tg reply logic in Dafny

This project models the reply logic of bot-vk-tg, a keyword chat bot that answers on
VKontakte and Telegram. It covers:

- the line-oriented file parsers of the modules: tarot card descriptions, angel-time
  meanings, lunar-day texts and details, the legacy lunar descriptions, and the tarot
  advice deck;
- the trigger classifiers and extractors: strict `HH:MM` times with the one-minute
  window, zodiac signs (whole-word and plain substring), the "кто сегодня" title, the
  admin id list and the admin command grammar, the simple replies and the time question;
- the small keyed stores that the handlers update in place: the per-user tarot card of
  the day (a JSON file), the tarot advice record of dates, the horoscope "waiting for a
  sign" map with its ten-minute expiry, and the directory of known chats;
- the platform-neutral router `build_reply_actions`, with its fake message and fake bot
  and the cleaning of the fallback result;
- the VK sender, which turns each reply action into at most one `messages.send` call.

There is one Dafny module per source file (`TarotDay`, `TarotState`, `TarotAdvice`,
`AngelTime`, `Horoscope`, `HoroscopeSite`, `LunarDay`, `LunarLegacy`, `WhoToday`,
`AdminCommands`, `IdleNotifier`, `Engine`, `VkSender`, `SimpleReplies`, `TimeChecker`).
Five helper modules are shared:

- `Optional`: the option type;
- `Strings`: the `str` methods the handlers use (`lower`, `strip`, `split`, `int()`,
  `str()`, the `\n` unescaping);
- `Clock`: times of day, `%H:%M`, ISO and `dd.mm.yyyy` dates;
- `Dicts`: a dictionary filled one assignment at a time by a loop;
- `Actions`: the reply action type `Text | Photo | Sticker`. It merges the two action
  class families of core/actions.py and core/engine.py.

The model follows the form of the source:

- Loops over file lines, id lists, targets and actions are methods with loop invariants.
  Each is proved equal to a specification function.
- The stores whose fields the source updates in place are classes with `modifies`
  clauses: `TarotState.StateStore`, `TarotAdvice.TarotAdvice`, `Horoscope.Waiting`,
  `IdleNotifier.Directory` and the engine's fakes.
- The pure parts (classifiers, reply branching) are functions, with lemmas about them.

Things outside the program are passed in as parameters:

- file contents, as `Option<seq<string>>`, with `None` for a missing file;
- the current time and date;
- the random choices, as a `pick: nat` index;
- the database and the web pages, as oracle functions.

`None` text is modelled as the empty string: every entry point treats the two alike.

## Model

| member | source | states |
|---|---|---|
| TarotDay.Normalize | modules/tarot_day/handler.py:44-45 | the normalised text neither starts nor ends with whitespace |
| TarotDay.EmptyNeverTriggers | modules/tarot_day/handler.py:48-50 | empty text never triggers a card |
| TarotDay.LoadDescriptions | modules/tarot_day/handler.py:53-116 | the line loop with its `_flush` yields the records of the file; a missing file yields none |
| TarotDay.HeaderNameNonEmpty | modules/tarot_day/handler.py:98-107 | a header line always has a non-empty record name |
| TarotDay.StoredTextsNonEmptyUnescaped | modules/tarot_day/handler.py:79-87 | every stored description is non-empty and contains no literal backslash-n |
| TarotDay.KeysComeFromHeaders | modules/tarot_day/handler.py:94-109 | every stored name is the name of some header line, so a file without headers stores nothing |
| TarotDay.CommentIgnored | modules/tarot_day/handler.py:93-95 | removing a `#` comment line does not change the records |
| TarotDay.PreambleIgnored | modules/tarot_day/handler.py:111-113 | lines before the first header are ignored |
| TarotDay.RecordLines | modules/tarot_day/handler.py:101-113 | the lines after a header, up to the next header, are that record's lines |
| TarotDay.LastRecordWins | modules/tarot_day/handler.py:79-115 | the last record with a name wins and holds the header text and every following line, blank lines included |
| TarotDay.Suffix | modules/tarot_day/handler.py:162-164 | `Path.suffix` is empty, or a dot followed by at least one character |
| TarotDay.ImageFilesSpec | modules/tarot_day/handler.py:162-164 | the listed images are exactly the folder's files with an image suffix, none with an empty name |
| TarotDay.DescriptionForSpec | modules/tarot_day/handler.py:177-187 | the lookup tries the exact name, then the lower-cased name, then `image<N>.jpg`; it gives "" exactly when none of them has a description |
| TarotDay.Descriptions | modules/tarot_day/handler.py:53-116 | every stored description is non-empty and holds no literal backslash-n |
| TarotDay.DescriptionFor | modules/tarot_day/handler.py:177-187 | a non-empty description is one of the stored ones |
| TarotDay.Respond | modules/tarot_day/handler.py:123-187 | a silent request is exactly one without reply, and leaves the file alone; a reply has one or two actions |
| TarotDay.DrawResult | modules/tarot_day/handler.py:157-187 | a draw replies with one text and leaves the file alone, or with a photo then a text and a stored record |
| TarotDay.GetTarotDayReply | modules/tarot_day/handler.py:123-187 | the reply and the new state file are those of the request the text makes |
| TarotDay.RequestKind | modules/tarot_day/handler.py:131-143 | empty text, then the exact reset phrases, then the triggers decide the request |
| TarotDay.ResetCard | modules/tarot_day/handler.py:135-140 | the reset branch drops the caller's record and answers according to whether there was one |
| TarotDay.DrawCard | modules/tarot_day/handler.py:145-187 | the draw branch: a refusal when today's card exists, otherwise a recorded card from the folder |
| TarotDay.SilentRequests | modules/tarot_day/handler.py:131-143 | text with neither a reset phrase nor a trigger asks for nothing |
| TarotDay.SilentWritesNothing | modules/tarot_day/handler.py:131-143 | a silent request gets no reply and leaves the state file as it was |
| TarotDay.ResetClearsCard | modules/tarot_day/handler.py:135-140 | a reset answers with one text, chosen by whether the user had a record, and afterwards the user has no card on any day |
| TarotDay.AlreadyDrawnRefuses | modules/tarot_day/handler.py:146-155 | a user who already has today's card gets one refusal text from the fixed list, and nothing is written |
| TarotDay.DrawRecordsCard | modules/tarot_day/handler.py:157-187 | a draw picks one of the image files, records it as today's card, and replies with an uncaptioned photo followed by a non-empty text |
| TarotDay.OneCardPerDay | modules/tarot_day/handler.py:146-173 | after a draw, a further request from the same user on the same day is refused and writes nothing |
| TarotDay.OtherUsersUntouched | modules/tarot_day/handler.py:123-187 | no request changes another user's card of the day |
| TarotState.NormalizeSource | modules/tarot_day/state.py:44-46 | the platform part of the key is never empty |
| TarotState.TodayCard | modules/tarot_day/state.py:49-61 | a card is returned only for a stored key, with today's date and a non-empty name |
| TarotState.StateStore.SetTodayCardForUser | modules/tarot_day/state.py:64-70 | the file afterwards is the loaded object with the caller's record replaced |
| TarotState.StateStore.ResetTodayCardForUser | modules/tarot_day/handler.py:137-140 | the caller's record is dropped, and the result says whether there was one |
| TarotState.SetThenGet | modules/tarot_day/state.py:49-70 | after `set` with a non-empty card, `get` on the same day returns that card |
| TarotState.StaleRecordIgnored | modules/tarot_day/state.py:56-57 | a record written on another day is not today's card |
| TarotState.EmptyCardIgnored | modules/tarot_day/state.py:58-60 | an empty card name is never returned |
| TarotState.SetKeepsOthers | modules/tarot_day/state.py:64-69 | `set` leaves every other user's card of the day unchanged |
| TarotState.NoFileNoCard | modules/tarot_day/state.py:28-36 | a missing, unparsable or empty state file holds no card for anybody |
| TarotState.UserKeyIdentifies | modules/tarot_day/state.py:44-46 | for platform names without a colon, two keys are equal exactly when the normalised platforms and the ids are equal |
| TarotState.NormalizeIgnoresCase | modules/tarot_day/state.py:45 | the key ignores the case of the platform name |
| TarotState.NormalizeIgnoresLeadingSpace | modules/tarot_day/state.py:45 | the key ignores leading whitespace of the platform name |
| TarotState.BlankSourceIsUnknown | modules/tarot_day/state.py:45 | a blank platform name is filed under "unknown" |
| TarotDay.SameEntrySameCard | modules/tarot_day/state.py:49-61 | a user's card depends only on that user's entry |
| Clock.IsoDateInjective | modules/tarot_day/state.py:16-17 | two dates have the same ISO text only when they are equal, so comparing the stored text compares dates |
| TarotAdvice.JoinPath | utils/Tarot/tarot_advice.py:19 | `os.path.join`: an absolute name replaces the folder, otherwise the folder, one slash and the name |
| TarotAdvice.EntryLines | utils/Tarot/tarot_advice.py:16-21 | a non-blank line is an entry exactly when it holds exactly one `\|`; image and description are the parts around it |
| TarotAdvice.LoadAdviceData | utils/Tarot/tarot_advice.py:12-22 | the read yields the entries of the file, and `None` for a missing file or a malformed line |
| TarotAdvice.MalformedStops | utils/Tarot/tarot_advice.py:15-17 | reading fails for good at a malformed line, whatever follows it |
| TarotAdvice.CollectEntries | utils/Tarot/tarot_advice.py:12-22 | the read succeeds exactly when no line is malformed, and then yields the entries in file order |
| TarotAdvice.BlankLinesSkipped | utils/Tarot/tarot_advice.py:16 | adding or removing blank lines anywhere does not change the deck |
| TarotAdvice.TarotAdvice.constructor | utils/Tarot/tarot_advice.py:7-10 | a new reader has no recorded dates and holds the deck read from the file |
| TarotAdvice.TarotAdvice.GetDailyAdvice | utils/Tarot/tarot_advice.py:24-36 | the outcome and the new record of dates are those of `DailyAdvice`; the deck is unchanged |
| TarotAdvice.DailyAdvice | utils/Tarot/tarot_advice.py:24-36 | a drawn advice is from the deck and records today for the user; any other outcome changes no date |
| TarotAdvice.FirstRequestDraws | utils/Tarot/tarot_advice.py:33-36 | a first request on a date, with a non-empty deck, gives a card of the deck and records the date |
| TarotAdvice.SecondRequestRefused | utils/Tarot/tarot_advice.py:27-30 | after a request that draws or is refused, another on the same date gets the refusal and changes nothing |
| TarotAdvice.RefusedExactlySameDay | utils/Tarot/tarot_advice.py:27-30 | a request is refused exactly when the recorded date is today |
| TarotAdvice.EmptyDeckRecordsNothing | utils/Tarot/tarot_advice.py:33 | with an empty deck a request records nothing |
| TarotAdvice.OtherUsersKeepDates | utils/Tarot/tarot_advice.py:24-34 | a request never changes another user's recorded date |
| AngelTime.TimeOf | modules/angel_time/handler.py:9 | the time a strict `HH:MM` text names is a valid time of day |
| AngelTime.StrictTimeIsHHMM | modules/angel_time/handler.py:9 | every strict text is the `%H:%M` rendering of the time it names |
| AngelTime.HHMMIsStrict | modules/angel_time/handler.py:9 | the `%H:%M` rendering of every valid time is strict |
| AngelTime.StrictLooksLikeTime | modules/angel_time/handler.py:158 | every strict time also looks like a time, so the format error never answers one |
| AngelTime.MeaningLine | modules/angel_time/handler.py:56-65 | every entry a line gives has a strict time as key and non-empty text |
| AngelTime.LoadMeanings | modules/angel_time/handler.py:45-69 | the loop yields the dictionary of the file's entries, later ones winning; a missing file gives the empty dictionary |
| AngelTime.LoadedMeaningsWellFormed | modules/angel_time/handler.py:56-65 | every loaded key is a strict time and every value is non-empty |
| AngelTime.IsTimeClose | modules/angel_time/handler.py:72-91 | the result is false for a text that does not parse, and otherwise whether now is the time itself or within the grace period after it |
| AngelTime.IsWithin | modules/angel_time/handler.py:84-91 | the exact time is accepted before the loop, whatever the grace; the loop over offsets 1 to `tol` then decides `Within` |
| AngelTime.NoGraceExactOnly | modules/angel_time/handler.py:84-91 | with a grace of zero or less, only the exact time is close |
| AngelTime.WithinIsMinutesAfter | modules/angel_time/handler.py:84-91 | closeness is the clock-face distance, counted across midnight |
| AngelTime.MidnightWraps | modules/angel_time/handler.py:87-89 | 23:59 is still accepted at 00:00 |
| AngelTime.StrictParses | modules/angel_time/handler.py:78-80 | a strict text parses to the time it shows |
| AngelTime.WithinOne | modules/angel_time/handler.py:84-91 | with a grace of one minute, now is the time itself or the minute after it |
| AngelTime.CloseWithinOneMinute | modules/angel_time/handler.py:72-91 | for a strict text, closeness with grace 1 means that now shows the time or the minute after it |
| AngelTime.TimeLikeIsShort | modules/angel_time/handler.py:130-158 | a time-like text is at most five characters long and is no statistics phrase |
| AngelTime.StatsPhraseAnswered | modules/angel_time/handler.py:130-154 | a statistics phrase gets exactly the statistics text and logs nothing |
| AngelTime.FormatErrorForLooseTime | modules/angel_time/handler.py:158-159 | time-like text that is not strict `HH:MM` gets exactly one format-error reply |
| AngelTime.OtherTextIgnored | modules/angel_time/handler.py:161-163 | text that is neither a statistics phrase nor time-like gets no reply |
| AngelTime.WrongTimeShowsNow | modules/angel_time/handler.py:168-171 | a strict time not close to now gets one reply that shows the current `HH:MM` |
| AngelTime.MeaningIgnoresStatsFailures | modules/angel_time/handler.py:176-189 | a close time with a meaning gets the meaning and the hint whether or not the statistics store fails |
| AngelTime.NoMeaningReply | modules/angel_time/handler.py:191-192 | a close time without a meaning gets one of the fixed no-meaning replies |
| AngelTime.AngelReply | modules/angel_time/handler.py:108-192 | empty text gets no reply and logs nothing; a reply is one text; a logged request is a strict time, close to now, with a meaning |
| Clock.AddMinutes | modules/angel_time/handler.py:87-89 | adding minutes keeps a valid time and moves the minute of the day by that amount, modulo a day |
| Horoscope.AllForms | modules/horoscope/handler.py:59-62 | the alternatives of the sign pattern are exactly the forms of the table |
| Horoscope.FormToSignOwn | modules/horoscope/handler.py:53-56 | with no form listed twice, every form maps to the sign it is listed under, and the map holds nothing else |
| Horoscope.SignFormsDisjoint | modules/horoscope/handler.py:37-50 | the handler's table lists no form under two signs |
| Horoscope.SignsAmongForms | modules/horoscope/handler.py:37-50 | each sign is among its own forms |
| Horoscope.FormsAreWords | modules/horoscope/handler.py:37-50 | every form is a non-empty word of lower-case Cyrillic letters |
| Horoscope.CanonicalMapsToItself | modules/horoscope/handler.py:37-56 | each canonical sign maps to itself |
| Horoscope.OneFormPerPosition | modules/horoscope/handler.py:59-62 | two forms never both stand as whole words at one position, so the order of the alternatives never decides a match |
| Horoscope.SearchFrom | modules/horoscope/handler.py:59-62 | the search finds a whole-word form at the leftmost position where one stands |
| Horoscope.SignInSpec | modules/horoscope/handler.py:105-114 | the search finds nothing exactly when no form stands as a whole word; otherwise it finds the sign of the leftmost one |
| Horoscope.ExtractSignSpec | modules/horoscope/handler.py:105-114 | `_extract_sign` gives the canonical sign of the leftmost whole-word form, ignoring case |
| Horoscope.ExtractSign | modules/horoscope/handler.py:105-114 | an extracted sign is one of the canonical signs |
| Horoscope.LongerWordNoMatch | modules/horoscope/handler.py:14 | a word followed by another letter is no match, so "гороскопы" is not "гороскоп" |
| Horoscope.Live | modules/horoscope/handler.py:78-82 | the entries kept are exactly those whose expiry is still ahead |
| Horoscope.Waiting.Cleanup | modules/horoscope/handler.py:78-82 | the map afterwards holds only the live entries |
| Horoscope.Waiting.SetWaiting | modules/horoscope/handler.py:85-87 | after a clean-up, the caller's entry expires 600 seconds from now |
| Horoscope.Waiting.IsWaiting | modules/horoscope/handler.py:90-98 | after a clean-up, the answer is whether the caller's entry is live |
| Horoscope.Waiting.ClearWaiting | modules/horoscope/handler.py:101-102 | only the caller's entry is removed |
| Horoscope.GetHoroscopeReply | modules/horoscope/handler.py:161-194 | the reply and the new map are those of the request the text makes |
| Horoscope.Respond | modules/horoscope/handler.py:161-194 | no text gives no reply and no change; a reply is one text; no entry but the caller's changes |
| Horoscope.WordAndSignAnswered | modules/horoscope/handler.py:188-192 | "гороскоп" with a sign, when the caller is not waiting, is answered with the horoscope of that sign, and only the expired entries are removed |
| Horoscope.SignAloneIgnored | modules/horoscope/handler.py:181-194 | a sign without "гороскоп", when the caller is not waiting, gets no reply, and only the expired entries are removed |
| Horoscope.AskSetsExpiry | modules/horoscope/handler.py:176-179 | "гороскоп" without a sign asks for one and sets the caller's entry to expire 600 seconds from now |
| Horoscope.LiveSignAnswered | modules/horoscope/handler.py:182-186 | a sign sent while the caller's entry is live is answered, and only that entry and the expired ones are removed |
| Horoscope.EntriesAfterStepLive | modules/horoscope/handler.py:78-98 | each call leaves the map unchanged, or leaves only entries that expire in the future |
| Horoscope.SilenceAddsNothing | modules/horoscope/handler.py:188-194 | without a reply, no entry is added |
| Horoscope.ReplyShape | modules/horoscope/handler.py:184-192 | a reply is the question, or the dated header with the capitalised sign, a blank line and the fetched text |
| Horoscope.AskThenSign | modules/horoscope/handler.py:176-186 | after the question, a sign sent within ten minutes is answered and the entry is gone |
| Horoscope.AskExpires | modules/horoscope/handler.py:90-98 | once ten minutes have passed, a sign on its own is ignored |
| HoroscopeSite.FirstSignSpec | utils/horoscope.py:39-44 | detection finds a sign exactly when some form occurs as a plain substring, and it is the first such sign in table order |
| HoroscopeSite.FirstSign | utils/horoscope.py:39-44 | a sign found is a sign of the table |
| HoroscopeSite.DetectZodiac | utils/horoscope.py:39-44 | a detected sign always has a slug |
| HoroscopeSite.SiteRequest | utils/horoscope.py:46-52 | a fetch happens exactly when the trimmed, lower-cased sign has a slug, and is for that sign; otherwise the fixed refusal |
| HoroscopeSite.DetectIgnoresCase | utils/horoscope.py:40 | detection ignores case |
| HoroscopeSite.SiteRequestCases | utils/horoscope.py:47-52 | an unknown sign gets the fixed refusal and nothing is fetched; a known one is fetched from the base address, the slug and a slash |
| HoroscopeSite.HoroscopeFromWebsite | utils/horoscope.py:46-50 | an unknown sign gives the refusal text |
| HoroscopeSite.ZodiacNamesKnown | utils/horoscope.py:9-37 | every sign of the table has a slug and is a lower-case Cyrillic word |
| HoroscopeSite.DetectedSignsFetched | utils/horoscope.py:39-52 | every sign that detection returns is fetched, never refused |
| LunarDay.TriggersDisjoint | modules/lunar_day/handler.py:10-11 | no phrase is both a main and a detail trigger |
| LunarDay.RequestExact | modules/lunar_day/handler.py:138-143 | only an exact phrase, after trimming and lower-casing, triggers, and it picks details or summary |
| LunarDay.KvEntry | modules/lunar_day/handler.py:37-45 | blank, comment and `\|`-less lines give nothing; an entry's day is the integer before the first `\|` |
| LunarDay.ReadKvFile | modules/lunar_day/handler.py:29-50 | the loop yields the dictionary of the file's entries, later ones winning; a missing file gives the empty dictionary |
| LunarDay.KvLineRoundTrip | modules/lunar_day/handler.py:37-45 | a line written as `<day>\|<text>` reads back as that day and text |
| LunarDay.KvFields | modules/lunar_day/handler.py:38-43 | an unpadded key without `\|` or a leading `#` is split from the trimmed text at the first `\|` |
| LunarDay.DetailEntry | modules/lunar_day/handler.py:106-112 | the key of every entry a part gives is lower-case |
| LunarDay.Details | modules/lunar_day/handler.py:106-112 | every key of the detail dictionary is lower-case |
| LunarDay.FormatExtra | modules/lunar_day/handler.py:99-131 | the rendering is the six fixed blocks of the dictionary read from the detail line |
| LunarDay.MissingKeyPlaceholder | modules/lunar_day/handler.py:114-131 | a block shows the placeholder exactly when its key is missing |
| LunarDay.UnknownKeysIgnored | modules/lunar_day/handler.py:114-131 | adding a key other than the six does not change the rendering |
| LunarDay.DetailPartRoundTrip | modules/lunar_day/handler.py:106-112 | a part written as `key=value` reads back as the lower-cased key and the value |
| LunarDay.DetailsAppend | modules/lunar_day/handler.py:106 | a detail line read in two pieces joined by `;` gives the parts of both, in order |
| LunarDay.LaterDetailWins | modules/lunar_day/handler.py:108-112 | a part followed only by parts for other keys decides its key |
| LunarDay.GetLunarDayReply | modules/lunar_day/handler.py:134-175 | the reply is that of the request the text makes, with the two loaded files |
| LunarDay.Respond | modules/lunar_day/handler.py:134-175 | there is no reply exactly when the text triggers nothing; a reply is one text |
| LunarDay.OneTextPerTrigger | modules/lunar_day/handler.py:134-175 | every triggered request gets exactly one text, and anything else gets none |
| LunarDay.MissingDetailMessage | modules/lunar_day/handler.py:153-156 | a detail request for a day without details gets the fixed message |
| LunarDay.MissingShortPlaceholder | modules/lunar_day/handler.py:160 | a summary for a day without a short text uses the fixed placeholder |
| LunarLegacy.LoadLunarDescriptions | handlers/lunar_day.py:13-26 | the loop yields the entries of the lines before the first line that raises; a missing file gives the empty dictionary |
| LunarLegacy.FirstFailureAt | handlers/lunar_day.py:16-25 | loading stops at the first line that cannot be read |
| LunarLegacy.StopAtFailure | handlers/lunar_day.py:16-25 | entries after a failing line make no difference |
| LunarLegacy.NothingAfterFailure | handlers/lunar_day.py:16-25 | a line that cannot be read ends the loading, and the lines after it are never loaded |
| LunarLegacy.BlankLineFails | handlers/lunar_day.py:18 | a blank line cannot be read |
| LunarLegacy.LineEntry | handlers/lunar_day.py:17-19 | a line gives nothing exactly when it has no `:` or its key is not an integer; a blank line gives nothing |
| LunarLegacy.LineFields | handlers/lunar_day.py:18-19 | a `<key>:<text>` line is split at its first `:`, and both fields are trimmed |
| LunarLegacy.LineRoundTrip | handlers/lunar_day.py:17-19 | a line written as `<day>:<escaped text>` reads back as that day and text |
| LunarLegacy.LunarDayOf | handlers/lunar_day.py:44 | `(delta % 29) + 1` lies in 1..29 for every integer delta |
| LunarLegacy.LunarDayCycle | handlers/lunar_day.py:44 | the count repeats every 29 days and is one more than the days elapsed within the first cycle |
| LunarLegacy.DaysSince | handlers/lunar_day.py:42 | the whole days elapsed since the new moon: now lies in that day |
| LunarLegacy.EndOfLunarDay | handlers/lunar_day.py:47 | the end lies a whole number of days after the new moon, one more than the days elapsed |
| LunarLegacy.EndBracketsNow | handlers/lunar_day.py:42-47 | the end of the lunar day is later than now, and now lies within the day before it |
| LunarLegacy.Description | handlers/lunar_day.py:55 | a known day gives its description, and an unknown one "Описание не найдено." |
| LunarLegacy.ReplyNamesDay | handlers/lunar_day.py:57-60 | the day can be read back after the fixed opening, the description stands after the fixed words that follow it, and the reply ends with the rendered end of the day |
| LunarLegacy.LunarDayCommand | handlers/lunar_day.py:51-62 | the reply opens with the fixed phrase; the day read back after it is the lunar day of the days elapsed; it carries that day's description at its fixed place, and ends with the rendered end of the lunar day |
| Strings.UnescapeEscape | handlers/lunar_day.py:19 | unescaping the escaped text gives the text back |
| WhoToday.ExtractTitle | modules/who_today/handler.py:35-71 | the method computes the title as `_extract_title` specifies it |
| WhoToday.Title | modules/who_today/handler.py:35-71 | a title is at most 60 characters long |
| WhoToday.DropFillerWords | modules/who_today/handler.py:54-58 | the filler loop removes each filler at most once, in order, only when it is followed by a space |
| WhoToday.TitleExactlyWithPhrase | modules/who_today/handler.py:42-50 | there is a title exactly when the text holds the phrase, and it is taken after the leftmost match |
| WhoToday.FinishShape | modules/who_today/handler.py:61-69 | a title is at most 60 characters long and neither starts nor ends with whitespace |
| WhoToday.TitleFromText | modules/who_today/handler.py:48-71 | the title is a piece of what the user wrote after the phrase |
| WhoToday.NoFillerKept | modules/who_today/handler.py:55-58 | a tail that starts with no filler and a space is kept as it is |
| WhoToday.ReadLines | modules/who_today/handler.py:17-28 | the loop yields the kept lines; a missing file yields none |
| WhoToday.LinesOfClean | modules/who_today/handler.py:21-25 | every kept line is trimmed, non-empty and not a comment |
| WhoToday.LinesOfAppend | modules/who_today/handler.py:21-25 | lines are read one at a time, so two parts of a file read as the concatenation |
| WhoToday.LinesOfOne | modules/who_today/handler.py:22-25 | a kept line reads as its trimmed self, and a blank or comment line adds nothing |
| WhoToday.FallbackNamesDistinct | modules/who_today/handler.py:74-84 | without a display name, different users get different names on every platform |
| WhoToday.TgNameHoldsId | modules/who_today/handler.py:78 | the id can be read back from the Telegram fallback name |
| WhoToday.LinkNameHoldsId | modules/who_today/handler.py:84 | the id can be read back from the VK `[id<id>\|…]` link |
| WhoToday.FormatName | modules/who_today/handler.py:74-84 | a display name is used as it is, and the name is never empty |
| WhoToday.Format | modules/who_today/handler.py:151 | a template without braces is copied as it is |
| WhoToday.FormatFields | modules/who_today/handler.py:151 | `{title}` and `{name}` are replaced by the title and the name |
| WhoToday.FormatPlain | modules/who_today/handler.py:151 | text without braces is copied as it is |
| WhoToday.FormatTwoFields | modules/who_today/handler.py:151 | a phrase with the two fields and plain text around them reads as that text with the title and the name put in |
| WhoToday.DefaultPhraseFilled | modules/who_today/handler.py:146-151 | the built-in phrase reads "Сегодня <title> — <name>." whatever the title and the name |
| WhoToday.Others | modules/who_today/handler.py:130 | the candidates left are exactly those whose id is not the requester's |
| WhoToday.GetWhoTodayReply | modules/who_today/handler.py:99-153 | the reply and the recorded title are those of `Respond` on the extracted title and the kept lines of both files |
| WhoToday.Respond | modules/who_today/handler.py:99-153 | there is a reply exactly when there is a title, and it is one text; a title is recorded only when there is a non-empty one, and it is that title |
| WhoToday.RequesterNeverChosen | modules/who_today/handler.py:130-138 | the requester is never given the title, and whoever is given it is one of the day's candidates |
| WhoToday.ReplyShape | modules/who_today/handler.py:99-153 | every reply is exactly one text; without the phrase there is none, and without a title it is the question |
| WhoToday.NobodyLeftFallback | modules/who_today/handler.py:132-136 | with nobody left, the reply is a fallback line, or the built-in one when the file has none, and nothing is assigned |
| AdminCommands.ParseAdminIds | modules/admin_commands/handler.py:8-19 | the method yields the integers among the trimmed, non-empty, comma-separated parts |
| AdminCommands.ReadIds | modules/admin_commands/handler.py:14-18 | the loop adds every part that `int()` reads and skips the rest |
| AdminCommands.IdsOfSpec | modules/admin_commands/handler.py:14-18 | the ids are exactly the integers read |
| AdminCommands.AdminIdsSpec | modules/admin_commands/handler.py:8-19 | an id is an admin id exactly when some trimmed, non-empty part reads as it |
| AdminCommands.SingleAdmin | modules/admin_commands/handler.py:8-19 | a setting holding one id makes exactly that id an admin |
| AdminCommands.IsAdmin | modules/admin_commands/handler.py:26-31 | a sender is an admin exactly when it is a Telegram sender in the Telegram list or a VK sender in the VK list |
| AdminCommands.SendToTargets | modules/admin_commands/handler.py:34-47 | the sends made are the planned sends before the first that raises, and whether one raised; without a raise the counts per platform are those of the targets |
| AdminCommands.RaisingSendStops | modules/admin_commands/handler.py:34-47 | when the send to a target raises, the sends before it are exactly those planned before it |
| AdminCommands.DeliveriesAppend | modules/admin_commands/handler.py:34-47 | the sends of two lists of targets are the sends of the first followed by those of the second |
| AdminCommands.DeliveriesCounted | modules/admin_commands/handler.py:34-47 | the counts are the sends to each platform, their sum is at most the number of targets, and every send carries the text to a target |
| AdminCommands.HandleAdminCommand | modules/admin_commands/handler.py:50-127 | the reply (one action, not a list), the sends and whether a send raised are those of the command grammar |
| AdminCommands.Command | modules/admin_commands/handler.py:50-127 | a raised send leaves no reply, and a reply is a text only when nothing raised |
| AdminCommands.Deliver | modules/admin_commands/handler.py:65-125 | the reply is given exactly when no send raised |
| AdminCommands.DeliverSpec | modules/admin_commands/handler.py:65-125 | the sends are the planned ones before the first that raises, and the reply is given only when none raised |
| AdminCommands.DeliverOne | modules/admin_commands/handler.py:108-125 | a single send is made and confirmed unless it raises, in which case nothing is sent and nothing replied |
| AdminCommands.SendCommand | modules/admin_commands/handler.py:93-125 | a raised send leaves no reply, and a reply is a text only when nothing raised |
| AdminCommands.SendKind | modules/admin_commands/handler.py:108-125 | the four kinds and only they have a platform: Telegram for `tg` and `tg_user`, VK for the others |
| AdminCommands.NonAdminSilent | modules/admin_commands/handler.py:55-62 | empty text or a sender who is not an admin gets no reply and sends nothing |
| AdminCommands.OtherAdminTextIgnored | modules/admin_commands/handler.py:127 | admin text with none of the command prefixes gets no reply and sends nothing |
| AdminCommands.BroadcastReportsSends | modules/admin_commands/handler.py:65-90 | without a raised send a broadcast reports as many messages as it sends, each carrying the message to a target; a raised send ends it without a report |
| AdminCommands.AllReportsSends | modules/admin_commands/handler.py:65-69 | `/all` sends the trimmed rest to known chats, up to the first raised send, and reports the number sent when none raised |
| AdminCommands.GroupsReachGroups | modules/admin_commands/handler.py:72-76 | `/groups` reaches only known group chats |
| AdminCommands.PlatformBroadcast | modules/admin_commands/handler.py:79-90 | `/tg` and `/vk` reach only known chats of their platform, and report the number sent |
| AdminCommands.OnlyOnePlatform | modules/admin_commands/handler.py:79-90 | targets all on one platform count none on any other |
| AdminCommands.SendErrorsSendNothing | modules/admin_commands/handler.py:93-125 | a malformed `/send`, a non-numeric id or an unknown kind gets an error text and sends nothing |
| AdminCommands.SendOnce | modules/admin_commands/handler.py:108-125 | a well-formed `/send` sends the trimmed text once, to the id on the kind's platform, and confirms it; when that send raises, nothing is sent and nothing replied |
| Strings.ParseIntToString | modules/admin_commands/handler.py:16 | `int(str(n)) == n` for every integer |
| IdleNotifier.Put | core/idle_notifier.py:16 | assigning a key adds it at the end when new and keeps the order when known |
| IdleNotifier.PutAllSpec | core/idle_notifier.py:53-57 | `update` keeps every known chat in its place, adds every loaded one, and adds nothing else |
| IdleNotifier.UpdateAllSpec | core/idle_notifier.py:53-57 | after `update` the dictionary holds the old chats and the loaded ones |
| IdleNotifier.UpdateAllLast | core/idle_notifier.py:57 | the last loaded pair for a chat decides its time |
| IdleNotifier.UpdateAllMissing | core/idle_notifier.py:57 | a chat that is not loaded keeps its time |
| IdleNotifier.KnownChatsSpec | core/idle_notifier.py:27-34 | the chats listed are exactly the known chats of the platform, or all of them when no platform is given |
| IdleNotifier.KnownChats | core/idle_notifier.py:27-34 | no more chats are listed than there are keys |
| IdleNotifier.GroupChatsSpec | core/idle_notifier.py:37-50 | the chats listed are exactly the known Telegram chats below 0 and VK chats from 2000000000 on |
| IdleNotifier.GroupChats | core/idle_notifier.py:37-50 | no more chats are listed than there are keys |
| IdleNotifier.GroupsAreKnown | core/idle_notifier.py:27-50 | every group chat is a known chat of the same platform |
| IdleNotifier.KnownChatsNoDup | core/idle_notifier.py:27-34 | the listing keeps the key order and lists each chat once |
| IdleNotifier.Directory.constructor | core/idle_notifier.py:11 | the directory starts empty |
| IdleNotifier.Directory.Touch | core/idle_notifier.py:14-24 | the chat is known afterwards with the current time, and no other key is added or removed |
| IdleNotifier.Directory.InitKnownChats | core/idle_notifier.py:53-57 | the loop merges the loaded chats in as `dict.update` does |
| IdleNotifier.Directory.GetKnownChats | core/idle_notifier.py:27-34 | the loop lists the known chats of the platform |
| IdleNotifier.Directory.GetGroupChats | core/idle_notifier.py:37-50 | the loop lists the group chats of the platform |
| Engine.RouteOf | core/engine.py:95-149 | the tarot route is taken exactly when the text is no start command and holds "таро"; the horoscope route needs "гороскоп" and no "таро" |
| Engine.FirstMatchWins | core/engine.py:95-149 | the branch taken is the first whose condition holds, and the fallback is taken exactly when none holds |
| Engine.TarotBeforeHoroscope | core/engine.py:100-124 | a text asking for both a tarot card and a horoscope gets the tarot answer |
| Engine.FindSign | core/engine.py:140-144 | the loop finds the first sign of the engine's table with a form in the text |
| Engine.HoroscopeAnswer | core/engine.py:124-149 | the horoscope branch gives the horoscope of the first sign with a form in the text, and asks which sign exactly when no form occurs |
| Engine.FakeMessage.ReplyText | core/engine.py:50-51 | a text reply is appended to the message's output |
| Engine.FakeMessage.ReplyPhoto | core/engine.py:53-55 | a photo reply is appended as the placeholder text |
| Engine.FakeBot.SendSticker | core/engine.py:72-74 | a sticker is appended to the engine's shared output list |
| Engine.RunHandler | core/engine.py:152-156 | the handler's calls leave the stickers in the output list and the texts in the message |
| Engine.Clean | core/engine.py:158-164 | the cleaning loop yields the actions without the empty texts |
| Engine.CleanedSpec | core/engine.py:158-164 | cleaning keeps exactly the actions that are not empty texts |
| Engine.CleanedAppend | core/engine.py:158-164 | cleaning works one action at a time, so it keeps the order |
| Engine.StickersBeforeTexts | core/engine.py:152-156 | in the fallback every sticker comes before every text, however the handler interleaved them |
| Engine.RunFallback | core/engine.py:152-164 | the fallback result is the stickers, then the message's texts, without the empty texts |
| Engine.BuildReply | core/engine.py:82-164 | blank text gets no actions and changes nothing; only the tarot route changes the record |
| Engine.BuildReplyActions | core/engine.py:82-164 | the result and the tarot reader's new record are those of `BuildReply`, and the deck is unchanged |
| Engine.AnswerAfterTarot | core/engine.py:108-156 | the branches after the tarot one give the answer of the route the text takes |
| Engine.BlankTextNoActions | core/engine.py:87-89 | empty or blank text gets no actions and changes nothing |
| Engine.OneActionOutsideFallback | core/engine.py:95-149 | every branch but the fallback answers with one action when it returns; only the tarot and lunar branches can raise, and only the tarot branch touches the record |
| Engine.LunarRouteRaises | core/engine.py:118-121 | the lunar branch raises, since it calls the legacy command without its two arguments, and the record is unchanged |
| Engine.TarotBranch | core/engine.py:100-106 | the tarot branch gives a photo of a deck card captioned with its description, or the refusal text, and fails only on an empty deck |
| Engine.LunarNeedsBoth | core/engine.py:119 | the lunar branch needs "лун" together with "день" or "календар" |
| VkSender.UploadPhoto | adapters/vk_sender.py:21-44 | there is an attachment exactly when there is an upload address and a saved item, and it names the first item |
| VkSender.AttachmentRoundTrip | adapters/vk_sender.py:44 | the owner and the id can be read back from the attachment |
| VkSender.AttachmentInjective | adapters/vk_sender.py:44 | distinct saved photos have distinct attachments |
| VkSender.MessagesFor | adapters/vk_sender.py:49-69 | an action sends at most one message, to the peer, and exactly one unless it is a photo |
| VkSender.SendActionsVk | adapters/vk_sender.py:47-69 | the loop sends the trace of messages of the actions before the first one whose requests raise, in order, and reports whether one raised |
| VkSender.SilentExactlyWhen | adapters/vk_sender.py:49-69 | an action sends nothing exactly when it is a photo without caption whose upload gives no address or no saved item; otherwise it sends one message to the peer |
| VkSender.PhotoSentWithAttachment | adapters/vk_sender.py:47-69 | a photo with an upload address and a saved item is sent with the attachment of the first item and its caption |
| VkSender.NothingAfterRaise | adapters/vk_sender.py:47-69 | a raising action ends the sending: what was sent is the trace of the actions before some position no later than it |
| VkSender.NoRaiseSendsAll | adapters/vk_sender.py:47-69 | when no request raises, every action is sent and nothing is reported raised |
| VkSender.AtMostOnePerAction | adapters/vk_sender.py:47-69 | each action sends at most one message, and every message goes to the peer |
| VkSender.InListOrder | adapters/vk_sender.py:47-69 | the messages of earlier actions come first and are not changed by later ones |
| VkSender.TextsSentInOrder | adapters/vk_sender.py:49-50 | a reply made only of texts is sent text for text, in order, without attachments |
| SimpleReplies.FirstRuleFromSpec | modules/simple_replies/handler.py:8-10 | the rule chosen is the first that fires, and when none is chosen no rule fires |
| SimpleReplies.SimpleReplySpec | modules/simple_replies/handler.py:6-11 | a reply is one text from the responses of the first rule with a trigger in the lower-cased text; no reply means no trigger occurs |
| SimpleReplies.SimpleReply | modules/simple_replies/handler.py:6-11 | a reply is one text taken from the responses of some rule |
| SimpleReplies.CaseInsensitive | modules/simple_replies/handler.py:7 | a text and its lower-cased form get the same reply |
| SimpleReplies.EmptyTextNoReply | modules/simple_replies/handler.py:7-11 | rules whose triggers are all non-empty never answer an empty text |
| TimeChecker.IsTimeRequest | utils/time_checker.py:13-15 | a time question is at least five characters long, the length of the shortest phrase |
| TimeChecker.TimeRequestSpec | utils/time_checker.py:13-15 | a text asks for the time exactly when one of the four phrases occurs in it, lower-cased |
| TimeChecker.EmptyNotTimeRequest | utils/time_checker.py:14-15 | an empty text is never a time question |
| TimeChecker.AnyCaseTriggers | utils/time_checker.py:14 | a phrase in any mix of case, anywhere in the text, makes it a time question |
| TimeChecker.TimeReply | utils/time_checker.py:17-20 | the reply opens with the fixed text, has the length of the opening, the zone and nine more characters, and ends with a full stop |
| TimeChecker.TimeReplyNamesTime | utils/time_checker.py:17-20 | the `HH:MM` time can be read back after the fixed opening of the reply |
| TimeChecker.TimeReplyInjective | utils/time_checker.py:17-20 | different times give different replies in the same zone |

## Left out

- HTTP and scraping are oracles. The horoscope page fetch and its extraction become a
  function from address to text. The answers of the VK upload server and save calls
  become a function from position and path to the upload address and the saved items,
  from which `UploadPhoto` makes the attachment. Whether an action's VK requests raise
  is a second oracle; the exception ends the sending there. The Telegram sender has no
  logic of its own.
- AdminCommands.HandleAdminCommand takes whether each send raises as an oracle. A raised
  send ends the command without a reply, as in the source, and the sends before it stand.
  What the platform API does with a send is not modelled.
- Postgres is not modelled. The stats store, the chat upserts, the who-today candidate
  list and title assignment, and the loading of known chats are inputs. A failing
  title assignment is ignored by the source, so the model does not record it.
- The clock, time zones and `random.choice` are parameters. Horoscope expiry times are
  reals in seconds. The `%H:%M`, ISO and `dd.mm.yyyy` renderings are modelled exactly.
  The legacy command's end time is an integer in seconds, rendered by a given function.
- The moon-phase and lunar-day astronomy (ephem, floating point) is not modelled. The
  lunar module takes the computed day as input. The legacy formula keeps only
  `(delta % 29) + 1` and the end time.
- Lower-casing covers ASCII and Russian letters (А–Я and Ё) only and keeps the length. Whitespace is
  the six ASCII blanks, and `int()` reads ASCII digits with an optional sign (no
  underscores, no other Unicode digits). With full Unicode `lower()` the who-today
  title slice could be misaligned.
- Strings.IsWordChar and Strings.IsDigit are narrower than Python's Unicode `\w`, `\b`
  and `\d`. A word character is an ASCII letter, digit or `_`, or a character from
  U+0400 to U+04FF; a digit is an ASCII digit. So a letter outside those ranges after a
  form (as in "гороскопé") ends a word in the model but not in the source, and a
  non-ASCII digit (as in "1١:11") is no digit in the model. Only texts holding such
  characters are classified differently.
- TarotState.LoadRaw has no case for a state file that holds JSON other than an object
  (a non-empty list, a number, a string). The source returns such a value and then fails
  in `get` and `set` (modules/tarot_day/state.py:33,53,67). Only `_save_raw` writes the
  file, always with an object, so only a file written by something else reaches it.
- `str.splitlines`/file iteration is modelled as the file already split into lines.
- TarotDay.ImageFiles keeps listing order, because `sorted()` of the file names is not
  modelled. The card is still one of the image files.
- TarotAdvice.TarotAdvice.constructor requires an advice file that reads without
  error. The source fails at import otherwise, and the engine builds the reader at
  import time.
- TarotState.StateStore.ResetTodayCardForUser models the reset that
  modules/tarot_day/handler.py imports, which the state module does not define. It
  drops the caller's record and reports whether there was one.
- Horoscope.Waiting.IsWaiting leaves out the expiry re-check after the clean-up, because
  the clean-up has already removed every expired entry and the re-check can never fire.
- Horoscope.SignInSpec names the sign of a form at the leftmost position. It does not
  model the order of regex alternatives, because at most one form fits at a position.
- AngelTime.IsTimeClose compares `HH:MM` times, as the source compares `strftime`
  texts. Seconds play no part.
- AngelTime.StatsReply is only rendered, not specified further. The ranking comes from
  the database.
- WhoToday.Format handles only `{title}`, `{name}`, `{{` and `}}`. Other `str.format`
  fields in a phrase file are not modelled.
- SimpleReplies.SimpleReply takes the RULES table as a parameter and requires every rule
  to have at least one response, which `random.choice` needs.
- Engine.BuildReply takes the keyword lists, the Romeo and Shine helpers and the
  fallback keyword handler as parameters, because handlers/romeo.py and handlers/shine.py
  are not part of this model. The lunar branch raises: it calls the legacy
  `lunar_day_command`, which needs two arguments, with none (core/engine.py:120,
  handlers/lunar_day.py:51). The calls that `app.py` makes positionally and with
  `source=` are not modelled.
- Engine.BuildReply leaves the results of branches other than the fallback uncleaned,
  as the source does.
- VkSender.SendActionsVk does not model the time-based `random_id`.
- IdleNotifier.Directory.Touch does not model the background Postgres save. The
  in-memory update happens whether or not an event loop runs.
- The web framework, the webhook routes and the legacy polling bot are not modelled.
  Settings read from the environment are parameters (the admin id strings, the time
  zone name). Code that runs at import is not modelled beyond building the initial
  state.
