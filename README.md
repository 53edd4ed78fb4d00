# MindCare Assistant: a verified model of its logic

MindCare Assistant is a mental-wellbeing web application: a Flask backend
(authentication, mood logging, a rule-based chatbot, a dashboard, profile and
settings endpoints over MongoDB) and a Next.js frontend (chat, mood tracker,
resource library, onboarding and profile pages). Most of it is plumbing; this
project models the sequential logic in it and proves what that logic
promises.

- **Dashboard aggregation** (`Dashboard`): the single ascending pass of
  `get_dashboard` that counts entries per mood, collects active days, tracks
  the current and longest streak of consecutive days, keeps the 30-item
  trend tail, and grants the four achievements in their fixed order.
  Same-day entries reset the streak to 1, as the code does.
- **Chatbot** (`Chatbot`, `Auth`): the first-match keyword classifier over
  the lower-cased message, the logging of each reply, and the
  `Authorization: Bearer <token>` splitter shared by every handler.
- **Mood tracker** (`MoodTracker`, `Calendar`): the 42-cell grid starting on
  the Sunday on or before day 1, with the in-month, today, mood and note of
  each cell; the average mood, the per-level distribution and the happy-day
  share. `Calendar` models the JavaScript `Date` operations the grid uses:
  `setDate` with overflow, `getDay`, and the date part of `toISOString`.
- **Resource library** (`Resources`): the case-insensitive search combined
  with the category test, the difficulty, type and plural mappings, the count
  text and the Clear Filters reset.
- **UI state machines** (`ChatPage`, `Onboarding`, `ProfilePage`): each page
  is a class whose methods update its fields. Each method is tied to a pure
  transition on a state value, and the page's promises are lemmas about
  those transitions.
- **Request handling** (`ProfileApi`, `SettingsApi`, `MoodApi`): the field
  whitelists, the error paths with their status codes and messages, the
  settings defaults, the dotted `$set` paths, the mood entry construction
  and the limit-then-reverse listing. The database is an abstract store: a
  map from user id to document, or a sequence of mood documents. The
  profile blueprint's own copy of `require_auth`, which looks the user up
  before the handler runs, is modelled as written and as evidently
  intended (see "## Findings"); the profile endpoints sit behind the
  intended one.
- Shared modules: `Wrappers` (Option, Result), `Json` (request bodies and
  Python truthiness), `Text` (lower-casing, substring search, JavaScript
  `trim`, Python `split()`, JavaScript `split(sep)`, decimal text) and
  `Lists` (`find`, `filter`, reversal).

Time, randomness and identifiers enter as parameters. This covers the
current instant (`now`), the chat reply's index into the response list, the
inserted document's id and the JWT decoder. Instants are integers and dates
are explicit year-month-day values; averages and percentages are `real`s.

## Model

| member | source | states |
|---|---|---|
| Auth.BearerToken | backend/chatbot.py:13-19 | a token comes out exactly when the header splits on whitespace into two words, the first being "Bearer"; it is non-empty and has no whitespace; every other header, or none, gives 401 "Token is missing!" |
| Auth.BearerRoundTrip | backend/chatbot.py:14-17 | any header "Bearer" + whitespace + token, with any surrounding whitespace, yields exactly that token |
| Auth.BearerRejects | backend/chatbot.py:14-19 | no header, a lower-case "bearer", a bare "Bearer" and a header with three words are all refused |
| Auth.RejectsLowerScheme | backend/chatbot.py:15-19 | "bearer " + token is refused: the scheme test is case-sensitive |
| Auth.RejectsBareScheme | backend/chatbot.py:15-19 | a header holding only "Bearer" is refused |
| Auth.RejectsTwoTokens | backend/chatbot.py:15-19 | a header with a third word is refused |
| Auth.Authenticate | backend/chatbot.py:13-26 | the decorator shared by the chatbot, dashboard, mood and settings blueprints: a refused header short-circuits with its 401; otherwise the result is the decoder's verdict on the extracted token |
| Chatbot.BasicBotResponse | backend/chatbot.py:31-47 | the reply is always one of the seven fixed strings |
| Chatbot.BotResponseIsFirstMatch | backend/chatbot.py:31-47 | the if/elif chain equals trying the six keyword rules in order on the lower-cased message, with the listening reply as the fallback |
| Chatbot.AnyOfTwo | backend/chatbot.py:34 | a two-keyword rule matches exactly when either keyword is a substring |
| Chatbot.RuleDecides | backend/chatbot.py:34-45 | the first rule with a matching keyword decides the reply, whatever later rules match |
| Chatbot.NoKeywordListens | backend/chatbot.py:46-47 | a message that matches no keyword gets "I'm here to listen. …" |
| Chatbot.ReplyDependsOnLowerCase | backend/chatbot.py:31-32 | the reply depends only on the lower-cased message; the mood argument is ignored |
| Chatbot.GreetingShadowsCrisis | backend/chatbot.py:34-45 | "nothing, suicide" contains "suicide" yet gets the greeting, because "hi" occurs inside "nothing" and the greeting rule comes first |
| Chatbot.MessageText | backend/chatbot.py:60 | a missing message is "", a text message is itself, and any other value has no `lower` |
| Chatbot.MoodOf | backend/chatbot.py:61 | the body's mood, or null when absent |
| Chatbot.ChatbotReply | backend/chatbot.py:59-80 | a present message that is not text is a 500 with nothing logged; otherwise the response is the classifier's reply to the message, or to "" when it is missing, and exactly one log entry is appended, carrying the user, message, mood, instant and that same response |
| Dashboard.GetDashboard | backend/dashboard.py:38-86 | the loop's results are the total, the per-mood counts, the number of distinct days, the longest streak, the last 30 trend points and the achievements of the whole input |
| Dashboard.Streak | backend/dashboard.py:59-62 | the streak counter after a prefix: one more when the entry is exactly one day after the previous one, otherwise 1; StreakIsRun shows it is the run of consecutive days ending at the last entry |
| Dashboard.Longest | backend/dashboard.py:64-66 | the largest value the streak counter has taken; LongestIsLongestRun shows it is the longest run of consecutive days |
| Dashboard.Counts | backend/dashboard.py:56-58 | the per-mood tally after a prefix; CountsAreOccurrences shows each key counts its occurrences |
| Dashboard.Days | backend/dashboard.py:48-54 | the set of days with an entry; DaysAreEntryDays characterises it |
| Dashboard.PrefixStep | backend/dashboard.py:52-66 | one loop iteration: the mood's count goes up by one, the day joins the set, a trend point is appended, the streak grows exactly when the day follows the previous entry's, and the longest streak is the maximum |
| Dashboard.GrantAchievements | backend/dashboard.py:69-77 | the appended achievements are those of the four threshold tests |
| Dashboard.Achievements | backend/dashboard.py:69-77 | "First Mood Logged" iff total >= 1, "7-Day Mood Streak" iff longest >= 7, "10 Happy Days" iff the "happy" count is at least 10, "30 Days of Tracking" iff total >= 30 |
| Dashboard.AchievementsOrdered | backend/dashboard.py:69-77 | the achievements come in the fixed order First, 7-Day, 10 Happy, 30 Days |
| Dashboard.Trend | backend/dashboard.py:55 | one trend point per entry, in input order, with its day and mood |
| Dashboard.LastWindow | backend/dashboard.py:84 | `[-30:]` keeps min(30, n) points and they are the tail |
| Dashboard.CountsAreOccurrences | backend/dashboard.py:57-58 | a mood is a key exactly when some entry has it, and its count is its number of occurrences |
| Dashboard.CountsSum | backend/dashboard.py:57-58 | over a key list covering every mood, the counts sum to the number of entries |
| Dashboard.StreakBounds | backend/dashboard.py:45-64 | the current streak is 0 exactly for no entries and never exceeds the entry count |
| Dashboard.LongestBounds | backend/dashboard.py:46-66 | no entries give a longest streak of 0; otherwise it is between 1 and the entry count |
| Dashboard.StreakStep | backend/dashboard.py:60-64 | appending a next-day entry extends the streak by 1; any other day, including the same day, resets it to 1 |
| Dashboard.StreakIsRun | backend/dashboard.py:59-64 | the current streak is the length of the maximal run of consecutive days ending at the last entry |
| Dashboard.RunEndingLastWithinStreak | backend/dashboard.py:59-64 | every run of consecutive days ending at the last entry is at most the current streak |
| Dashboard.LongestIsLongestRun | backend/dashboard.py:59-66 | the longest streak bounds every run of consecutive days in the input, and some run attains it |
| Dashboard.DaysAreEntryDays | backend/dashboard.py:48-54 | a day is active exactly when some entry falls on it |
| Dashboard.ActiveDaysAtMostTotal | backend/dashboard.py:54-81 | there are at most as many active days as entries |
| Dashboard.TrendIsTail | backend/dashboard.py:55-84 | the k-th trend point of the answer is the entry at position n - min(30, n) + k |
| Dashboard.DashboardFacts | backend/dashboard.py:79-86 | for the reported data: counts sum to the total, active days are at most the total, and the longest streak is 0 or between 1 and the total |
| Calendar.DaysInMonth | frontend/app/mood-tracker/page.tsx:50 | a month has 28 to 31 days, February 29 exactly in leap years |
| Calendar.SetDate | frontend/app/mood-tracker/page.tsx:52-56 | `setDate(n)` counts n days from day 1 of the date's month, running into the following or preceding months, and always yields a valid date; SetDateIsAddDays ties it to moving by n - day days |
| Calendar.NextPrevInverse | frontend/app/mood-tracker/page.tsx:52-56 | the next day and the previous day undo each other |
| Calendar.SetDateIsAddDays | frontend/app/mood-tracker/page.tsx:56 | `setDate(getDate() + i)` moves the date i days forward, across month ends |
| Calendar.AddDaysSplit | frontend/app/mood-tracker/page.tsx:56 | moving a + b days is moving a days and then b |
| Calendar.AddDaysInMonth | frontend/app/mood-tracker/page.tsx:56 | within a month, moving k days adds k to the day field |
| Calendar.SubDaysInMonth | frontend/app/mood-tracker/page.tsx:52 | within a month, moving back k days subtracts k from the day field |
| Calendar.AddDaysNumber | frontend/app/mood-tracker/page.tsx:56 | moving n days forward adds n to the running day number |
| Calendar.SubDaysNumber | frontend/app/mood-tracker/page.tsx:52 | moving n days back subtracts n from the running day number |
| Calendar.Weekday | frontend/app/mood-tracker/page.tsx:52 | `getDay` lies in 0..6 |
| Calendar.WeekdayAnchors | frontend/app/mood-tracker/page.tsx:52 | the weekday count agrees with the real calendar: 1970-01-01 is a Thursday, 2024-01-01 and 0001-01-01 are Mondays |
| Calendar.BackToSunday | frontend/app/mood-tracker/page.tsx:52 | going back `getDay()` days lands on a Sunday |
| Calendar.WeekdayRetreat | frontend/app/mood-tracker/page.tsx:52 | n days earlier the weekday has gone back by n modulo 7 |
| Calendar.WeekdayAdvance | frontend/app/mood-tracker/page.tsx:54-56 | n days later the weekday has advanced by n modulo 7 |
| Calendar.Pad | frontend/app/mood-tracker/page.tsx:57 | zero-padding gives exactly the requested width |
| Calendar.IsoYear | frontend/app/mood-tracker/page.tsx:57 | the year is four digits in 0..9999 and seven characters (sign and six digits) otherwise |
| Calendar.IsoDate | frontend/app/mood-tracker/page.tsx:57 | `YYYY-MM-DD` is the year text plus six characters |
| Calendar.IsoDateHasNoT | frontend/app/mood-tracker/page.tsx:57 | the date part holds no "T" |
| Calendar.ToIsoString | frontend/app/mood-tracker/page.tsx:57 | `toISOString()` of a date at midnight UTC: the YYYY-MM-DD text followed by "T00:00:00.000Z" |
| Calendar.DateString | frontend/app/mood-tracker/page.tsx:57-64 | `toISOString().split("T")[0]`, the piece before the first "T", which DateStringIsIsoDate shows to be the YYYY-MM-DD text |
| Calendar.DateStringIsIsoDate | frontend/app/mood-tracker/page.tsx:57-64 | `toISOString().split("T")[0]` is exactly the `YYYY-MM-DD` text |
| Calendar.IsoDateParts | frontend/app/mood-tracker/page.tsx:57 | the text is the year, the two-digit month and the two-digit day at fixed positions |
| Calendar.DateStringInjective | frontend/app/mood-tracker/page.tsx:57-64 | distinct dates have distinct date strings, so comparing strings compares dates |
| MoodTracker.GetMoodEmoji | frontend/app/mood-tracker/page.tsx:40-42 | an emoji record is found exactly for moods 1..5, and it is the record with that value |
| MoodTracker.CellEmoji | frontend/app/mood-tracker/page.tsx:40-65 | a cell shows an emoji exactly when it carries a mood in 1..5, and the emoji is that mood's |
| MoodTracker.GenerateCalendarDays | frontend/app/mood-tracker/page.tsx:44-70 | the loop produces exactly 42 cells and cell i is the cell for the i-th day from the grid's start |
| MoodTracker.GridYear | frontend/app/mood-tracker/page.tsx:49 | the year `new Date(currentYear, currentMonth, 1)` lands in: 1900 + year for a year in 0..99, the year itself otherwise |
| MoodTracker.GridStart | frontend/app/mood-tracker/page.tsx:51-52 | startDate: day 1 of the month (in GridYear) moved back by its weekday, a valid date; GridStartsOnSunday states it is a Sunday at most six days before day 1 |
| MoodTracker.MakeCell | frontend/app/mood-tracker/page.tsx:57-67 | one cell: the date, its date string, the month and today flags, and the mood and note of the first entry with that date string; CellMood and InMonthExactly state this |
| MoodTracker.BuildCell | frontend/app/mood-tracker/page.tsx:55-67 | one iteration builds the date, its string, the two flags and the first matching entry's mood and note |
| MoodTracker.GridStartIsSubDays | frontend/app/mood-tracker/page.tsx:49-52 | the start is day 1 moved back by its weekday, which falls in the previous month exactly when the weekday is not 0 |
| MoodTracker.CellIsStartPlus | frontend/app/mood-tracker/page.tsx:55-56 | cell i's date is the start moved i days |
| MoodTracker.StartPlusOffset | frontend/app/mood-tracker/page.tsx:49-52 | moving the start forward by day 1's weekday gives day 1 |
| MoodTracker.CellDate | frontend/app/mood-tracker/page.tsx:52-56 | cells before the offset are the previous month's last days, the next cells the month's days in order, and the rest the next month's first days |
| MoodTracker.CellBeforeMonth | frontend/app/mood-tracker/page.tsx:52-56 | cell i before the offset holds day (previous month's length) - offset + 1 + i of the previous month |
| MoodTracker.CellFromFirst | frontend/app/mood-tracker/page.tsx:52-56 | from the offset on, cell i is the first of the month moved i - offset days |
| MoodTracker.CellInMonth | frontend/app/mood-tracker/page.tsx:52-56 | from the offset through the month's end, cell i holds day i - offset + 1 of the month |
| MoodTracker.CellAfterMonth | frontend/app/mood-tracker/page.tsx:52-56 | past the month's end, cell i holds day i - offset - (month length) + 1 of the next month |
| MoodTracker.GridStartsOnSunday | frontend/app/mood-tracker/page.tsx:51-52 | the first cell is a Sunday, at most 6 days before day 1, and day 1 sits at index weekday(day 1) |
| MoodTracker.GridConsecutive | frontend/app/mood-tracker/page.tsx:54-56 | consecutive cells are consecutive days, and cell i falls on weekday i mod 7 |
| MoodTracker.MonthFitsInGrid | frontend/app/mood-tracker/page.tsx:52-56 | every day of the month, 28 to 31 of them, has its cell inside the 42 |
| MoodTracker.InMonthExactly | frontend/app/mood-tracker/page.tsx:63 | `isCurrentMonth` holds exactly for the cells of the month's days |
| MoodTracker.TodayExactly | frontend/app/mood-tracker/page.tsx:64 | `isToday` holds exactly for the cell whose date is today; outside the years 0..99 that is the one at offset + day - 1, and in them no cell is today, since the grid shows the month of 1900 + year |
| MoodTracker.CellMood | frontend/app/mood-tracker/page.tsx:57-66 | a cell carries a mood exactly when it carries a note, exactly when some entry has its date string, and then they are the first such entry's |
| MoodTracker.AverageMood | frontend/app/mood-tracker/page.tsx:73 | the average exists exactly for non-empty data, and average times count is the sum |
| MoodTracker.SumBounds | frontend/app/mood-tracker/page.tsx:73 | with moods in 1..5 the sum lies between n and 5n |
| MoodTracker.AverageInRange | frontend/app/mood-tracker/page.tsx:73 | with moods in 1..5 the average lies in 1..5 |
| MoodTracker.DistributionCoversAll | frontend/app/mood-tracker/page.tsx:274-276 | with moods in 1..5 the five level counts sum to the number of entries |
| MoodTracker.Percentage | frontend/app/mood-tracker/page.tsx:276 | a percentage exists exactly for a non-zero total, and percentage times total is 100 times the count |
| MoodTracker.PercentagesSumTo100 | frontend/app/mood-tracker/page.tsx:274-276 | with moods in 1..5 the five percentages sum to 100 |
| MoodTracker.HappyIsFourOrFive | frontend/app/mood-tracker/page.tsx:320 | with moods in 1..5 the happy days are exactly the level-4 and level-5 entries |
| MoodTracker.HappyShareInRange | frontend/app/mood-tracker/page.tsx:320 | the happy share lies in 0..100 |
| Resources.FilterCatalog | frontend/app/resources/page.tsx:114-123 | every result passes both the search and the category test, and there are no more results than records |
| Resources.MatchesSearch | frontend/app/resources/page.tsx:115-118 | the lower-cased term occurs in the lower-cased title, the description or some tag |
| Resources.MatchesCategory | frontend/app/resources/page.tsx:120 | the category is "all" or the record's own |
| Resources.FilteredResources | frontend/app/resources/page.tsx:114-123 | filteredResources: FilterCatalog over the page's own catalogue |
| Resources.FilterIsOrderedSubsequence | frontend/app/resources/page.tsx:114-123 | the results are the catalogue's records at increasing positions, and a position is kept exactly when its record passes both tests |
| Resources.FilterMembership | frontend/app/resources/page.tsx:114-123 | a record occurs in the result as often as in the catalogue when it passes both tests, and not at all otherwise |
| Resources.AllCategoryIsSearchOnly | frontend/app/resources/page.tsx:120 | with "all" the category places no restriction |
| Resources.EmptyTermMatches | frontend/app/resources/page.tsx:115-118 | the empty term matches every record |
| Resources.NoFilterKeepsAll | frontend/app/resources/page.tsx:114-123 | ("", "all") returns the whole catalogue in order |
| Resources.SearchIgnoresTermCase | frontend/app/resources/page.tsx:116-118 | two terms with the same lower-cased form select the same records |
| Resources.UpperCaseTermFindsBreathing | frontend/app/resources/page.tsx:116-118 | "BREATHING" finds the breathing exercise through its lower-cased tag |
| Resources.TagMatches | frontend/app/resources/page.tsx:116-118 | a tag containing the lower-cased term makes the record match the search |
| Resources.DifficultyColor | frontend/app/resources/page.tsx:125-136 | the style is one of the four, and the gray default exactly for anything but the three levels |
| Resources.DifficultyColorsDistinct | frontend/app/resources/page.tsx:125-132 | the three levels get three distinct styles |
| Resources.TypeIcon | frontend/app/resources/page.tsx:138-140 | Heart exactly for "exercise", BookOpen otherwise |
| Resources.PluralSuffix | frontend/app/resources/page.tsx:341 | the suffix is "s" exactly when the count is not 1 |
| Resources.CountText | frontend/app/resources/page.tsx:341 | the line is "Showing ", then a run of decimal digits without a leading zero that reads back as the count, then " resource" and the plural suffix |
| Resources.CountTextPlural | frontend/app/resources/page.tsx:341 | the line ends in "resources" exactly when the count is not 1 |
| Resources.ResourcesPage.constructor | frontend/app/resources/page.tsx:110-112 | the page starts with the empty term, the "all" category and no selected record |
| Resources.ResourcesPage.SetSearchTerm | frontend/app/resources/page.tsx:110 | the setter changes the term and nothing else |
| Resources.ResourcesPage.SetSelectedCategory | frontend/app/resources/page.tsx:111 | the setter changes the category and nothing else |
| Resources.ResourcesPage.ClearFilters | frontend/app/resources/page.tsx:413-416 | Clear Filters restores ("", "all") and so shows the whole catalogue |
| ChatPage.MoodLabel | frontend/app/chat/page.tsx:94 | moods 1..5 give their button's label, and any other value "Unknown" |
| ChatPage.MoodMessage | frontend/app/chat/page.tsx:95 | the message is "I'm feeling " and " today" around the mood's lower-cased label |
| ChatPage.MoodMessageTrimmed | frontend/app/chat/page.tsx:56-95 | a mood message is never blank and is its own trim, so it is sent unchanged |
| ChatPage.VerySadMessage | frontend/app/chat/page.tsx:94-95 | mood 1 sends "I'm feeling very sad today" |
| ChatPage.UnknownMoodMessage | frontend/app/chat/page.tsx:94-95 | a value outside 1..5 sends "I'm feeling unknown today" |
| ChatPage.InitialValid | frontend/app/chat/page.tsx:33-44 | the page starts with the welcome message, the chips shown and Send disabled |
| ChatPage.ChipsVisible | frontend/app/chat/page.tsx:148 | the quick-start chips show while the history holds at most one message |
| ChatPage.SendDisabled | frontend/app/chat/page.tsx:239 | Send is disabled for a blank input or while a reply is pending |
| ChatPage.InputDisabled | frontend/app/chat/page.tsx:226 | the input box is disabled while a reply is pending |
| ChatPage.Send | frontend/app/chat/page.tsx:55-68 | handleSendMessage: blank content changes nothing; otherwise the trimmed content is appended as a user message stamped with the clock, the input is cleared and a reply becomes pending; SendBlank, SendAppends and SendKeepsValid state this |
| ChatPage.Reply | frontend/app/chat/page.tsx:70-88 | the delayed reply: one of the five canned responses is appended as an assistant message and typing stops; ReplyAppends states this |
| ChatPage.SelectMood | frontend/app/chat/page.tsx:91-96 | handleMoodSelect: records the mood, hides the selector and sends the mood message; SelectMoodSends states this |
| ChatPage.SendBlank | frontend/app/chat/page.tsx:56 | a blank or whitespace-only send changes nothing |
| ChatPage.SendAppends | frontend/app/chat/page.tsx:58-67 | a non-blank send appends exactly one user message holding the trimmed input and keeps the earlier messages; the input is cleared and the typing flag set |
| ChatPage.SendKeepsValid | frontend/app/chat/page.tsx:55-67 | sending keeps the history well formed; after a real send the chips are hidden and Send and the input are disabled |
| ChatPage.HistoryAppend | frontend/app/chat/page.tsx:58-88 | appending a well-formed message keeps the history valid |
| ChatPage.SendTrimmed | frontend/app/chat/page.tsx:55-67 | text that is already trimmed and not blank is appended as it is, and the state stays valid |
| ChatPage.ReplyAppends | frontend/app/chat/page.tsx:70-88 | a reply appends exactly one assistant message from the five fixed responses, keeps the earlier messages, and clears the typing flag |
| ChatPage.SelectMoodSends | frontend/app/chat/page.tsx:91-95 | selecting a mood records it, hides the selector and appends the mood message |
| ChatPage.Chat.constructor | frontend/app/chat/page.tsx:33-44 | the fields start in the initial state |
| ChatPage.Chat.SetInput | frontend/app/chat/page.tsx:223 | typing changes only the input |
| ChatPage.Chat.SendMessage | frontend/app/chat/page.tsx:55-68 | the fields after handleSendMessage are the Send transition of the fields before |
| ChatPage.Chat.ReceiveReply | frontend/app/chat/page.tsx:70-88 | the fields after the timer fires are the Reply transition |
| ChatPage.Chat.HandleMoodSelect | frontend/app/chat/page.tsx:91-96 | the fields after handleMoodSelect are the SelectMood transition |
| ChatPage.Chat.ChipClick | frontend/app/chat/page.tsx:98-100 | a chip click sends the chip's text |
| Onboarding.StepsStayInRange | frontend/app/onboarding/page.tsx:87-97 | both buttons keep the step in 0..2 |
| Onboarding.Next | frontend/app/onboarding/page.tsx:87-91 | nextStep: one step on below the last step, otherwise the step stays; StepsStayInRange and StepsMoveByOne state its range and its moves |
| Onboarding.Prev | frontend/app/onboarding/page.tsx:93-97 | prevStep: one step back above the first step, otherwise the step stays; PrevUndoesNext pairs it with Next |
| Onboarding.DotFilled | frontend/app/onboarding/page.tsx:110 | dot `index` is filled when `index <= currentStep` |
| Onboarding.PrevDisabled | frontend/app/onboarding/page.tsx:129 | Previous is disabled on step 0; ButtonsMatchSteps shows that is exactly where prevStep does nothing |
| Onboarding.ShowsStartChatting | frontend/app/onboarding/page.tsx:137 | "Start Chatting" replaces Next from the last step on; ButtonsMatchSteps shows that is exactly where nextStep does nothing |
| Onboarding.StepsMoveByOne | frontend/app/onboarding/page.tsx:87-97 | Next moves up by one except on the last step, and Previous moves down by one except on step 0 |
| Onboarding.PrevUndoesNext | frontend/app/onboarding/page.tsx:87-97 | Previous after Next from a non-last step restores it, and Next after Previous from a non-first step restores it |
| Onboarding.NextTimes | frontend/app/onboarding/page.tsx:87-91 | any number of Next presses from a valid step stays in range |
| Onboarding.NextReachesLast | frontend/app/onboarding/page.tsx:87-91 | from step 0, n presses of Next reach step min(n, 2) |
| Onboarding.FilledDots | frontend/app/onboarding/page.tsx:106-115 | at most n of the first n dots are filled |
| Onboarding.FilledDotsCount | frontend/app/onboarding/page.tsx:110 | on step s exactly s + 1 dots are filled |
| Onboarding.AllDotsBelow | frontend/app/onboarding/page.tsx:110 | every dot up to the current step is filled |
| Onboarding.ButtonsMatchSteps | frontend/app/onboarding/page.tsx:129-137 | Previous is disabled exactly where it does nothing, and "Start Chatting" shows exactly where Next does nothing |
| Onboarding.Progress | frontend/app/onboarding/page.tsx:133-135 | the text is digits that read back as the step's 1-based position, " of ", and digits that read back as the number of steps |
| Onboarding.ProgressEnds | frontend/app/onboarding/page.tsx:134 | the first step reads "1 of 3" and the last "3 of 3" |
| Onboarding.OnboardingPage.constructor | frontend/app/onboarding/page.tsx:10 | the page starts on step 0 |
| Onboarding.OnboardingPage.NextStep | frontend/app/onboarding/page.tsx:87-91 | nextStep moves the field as Next does |
| Onboarding.OnboardingPage.PrevStep | frontend/app/onboarding/page.tsx:93-97 | prevStep moves the field as Previous does |
| ProfilePage.HandlersKeepValid | frontend/app/profile/page.tsx:43-51 | no handler lets the buffer's email differ from the saved one, so the saved email never changes |
| ProfilePage.StartEditing | frontend/app/profile/page.tsx:72 | the Edit button enters edit mode and changes nothing else |
| ProfilePage.Save | frontend/app/profile/page.tsx:43-46 | handleSave: the buffer becomes the profile and edit mode ends; SaveCommits states this |
| ProfilePage.Cancel | frontend/app/profile/page.tsx:48-51 | handleCancel: the buffer is reset to the profile and edit mode ends; CancelDiscards states this |
| ProfilePage.EditName | frontend/app/profile/page.tsx:131 | the name input writes only the buffer's name |
| ProfilePage.EditAge | frontend/app/profile/page.tsx:148 | the age input writes only the buffer's age |
| ProfilePage.EditGoals | frontend/app/profile/page.tsx:159 | the goals input writes only the buffer's goals |
| ProfilePage.SetDarkMode | frontend/app/profile/page.tsx:254 | the dark-mode switch writes only that preference |
| ProfilePage.SetNotifications | frontend/app/profile/page.tsx:268 | the notifications switch writes only that preference |
| ProfilePage.SetWeeklyReports | frontend/app/profile/page.tsx:282 | the weekly-reports switch writes only that preference |
| ProfilePage.ShownName | frontend/app/profile/page.tsx:130 | the name field shows the buffer while editing and the saved name otherwise |
| ProfilePage.ShownAge | frontend/app/profile/page.tsx:147 | the age field shows the buffer while editing and the saved age otherwise |
| ProfilePage.ShownGoals | frontend/app/profile/page.tsx:158 | the goals field shows the buffer while editing and the saved goals otherwise |
| ProfilePage.ShownEmail | frontend/app/profile/page.tsx:139 | the email field always shows the saved email |
| ProfilePage.InputsEnabled | frontend/app/profile/page.tsx:132 | the inputs accept input only while editing (`disabled={!isEditing}`) |
| ProfilePage.SaveCommits | frontend/app/profile/page.tsx:43-46 | Save commits the buffer, leaves editing and shows the saved values |
| ProfilePage.CancelDiscards | frontend/app/profile/page.tsx:48-51 | Cancel leaves the profile as it was, resets the buffer to it and leaves editing |
| ProfilePage.CancelForgetsEdits | frontend/app/profile/page.tsx:48-51 | cancel after any edit is cancel alone |
| ProfilePage.SaveAfterEdit | frontend/app/profile/page.tsx:43-46 | saving one edit from a clean buffer changes exactly that field of the profile |
| ProfilePage.EditChangesOneField | frontend/app/profile/page.tsx:130-159 | an edit changes only its field and shows it while editing |
| ProfilePage.EditHiddenOutsideEditing | frontend/app/profile/page.tsx:130-158 | outside editing the form shows the saved values |
| ProfilePage.SwitchesAreIndependent | frontend/app/profile/page.tsx:254-282 | each switch sets its own key and leaves the others and the profile alone |
| ProfilePage.FirstChars | frontend/app/profile/page.tsx:105-106 | the joined first characters are no more than the words; when no word is empty there is one per word, the k-th being word k's first character |
| ProfilePage.Initials | frontend/app/profile/page.tsx:103-106 | the initials contain no space; when no space-separated word is empty they are the words' first characters, in order |
| ProfilePage.FirstCharsAvoid | frontend/app/profile/page.tsx:105-106 | first characters of words avoiding a character avoid it |
| ProfilePage.InitialsOfTwoWords | frontend/app/profile/page.tsx:103-106 | two words joined by one space give their two first letters |
| ProfilePage.SarahJohnson | frontend/app/profile/page.tsx:103-106 | "Sarah Johnson" gives "SJ" |
| ProfilePage.Page.constructor | frontend/app/profile/page.tsx:21-33 | the fields start in the initial state |
| ProfilePage.Page.StartEdit | frontend/app/profile/page.tsx:21 | the Edit button enters editing mode |
| ProfilePage.Page.HandleSave | frontend/app/profile/page.tsx:43-46 | handleSave performs the Save transition |
| ProfilePage.Page.HandleCancel | frontend/app/profile/page.tsx:48-51 | handleCancel performs the Cancel transition |
| ProfilePage.Page.ChangeName | frontend/app/profile/page.tsx:131 | the name input writes the buffer's name |
| ProfilePage.Page.ChangeAge | frontend/app/profile/page.tsx:148 | the age input writes the buffer's age |
| ProfilePage.Page.ChangeGoals | frontend/app/profile/page.tsx:159 | the goals input writes the buffer's goals |
| ProfilePage.Page.ToggleDarkMode | frontend/app/profile/page.tsx:254 | the switch writes darkMode |
| ProfilePage.Page.ToggleNotifications | frontend/app/profile/page.tsx:268 | the switch writes notifications |
| ProfilePage.Page.ToggleWeeklyReports | frontend/app/profile/page.tsx:282 | the switch writes weeklyReports |
| ProfileApi.Public | backend/profile.py:42-66 | the answered document has no password, has `_id` as the id's string, and keeps every other field |
| ProfileApi.GetProfile | backend/profile.py:40-46 | 404 "User not found." exactly for an unknown user, otherwise the public document |
| ProfileApi.DictOfText | backend/profile.py:23 | `dict` of the id text raises for every non-empty id and gives the empty document for "" |
| ProfileApi.ProfileAuthAsWritten | backend/profile.py:8-33 | the blueprint's decorator as written refuses every request: the header and decoder errors pass through, a non-empty id is 401 "Token is invalid.", and "" is 404 |
| ProfileApi.ProfileAuthenticate | backend/profile.py:20-27 | the intended decorator lets a request through exactly when the decoded id is a stored user's, with that id; an unknown id is 404 "User not found." |
| ProfileApi.GetProfileRequest | backend/profile.py:38-46 | behind the intended decorator, GET /api/profile answers the public document exactly for an accepted token of a stored user |
| ProfileApi.StoredUserRefused | backend/profile.py:20-31 | a token for a stored user with a non-empty id is refused with 401 as written, and reaches that user's profile as intended |
| ProfileApi.CollectUpdate | backend/profile.py:54-59 | the loop's update is exactly the body restricted to name, avatar, age and goals, with the body's values |
| ProfileApi.UpdateProfile | backend/profile.py:51-67 | 400 "No valid fields to update." exactly when no allowed key is present, with no write; 404 "User not found." exactly when keys are present but the user is not; otherwise the whitelisted fields are merged into the document and the updated public document is answered |
| ProfileApi.ApplyUpdate | backend/profile.py:62 | `$set` of the update on the caller's document: the update's fields override, all others stay; UpdateWritesOnlyEditable states this |
| ProfileApi.UpdateWritesOnlyEditable | backend/profile.py:56-62 | an update writes each allowed key the body carries with the request's value and keeps every other field, allowed fields the body omits included, so email and password are untouched; other users are left alone |
| ProfileApi.ProtectedFields | backend/profile.py:56 | email, password and `_id` are not editable |
| SettingsApi.GetSettings | backend/settings.py:34-45 | a missing user, or one without settings, gets the defaults; otherwise the stored settings |
| SettingsApi.DefaultsWhenUnset | backend/settings.py:37-44 | the defaults are exactly notifications on and dark mode off |
| SettingsApi.Paths | backend/settings.py:61 | the `$set` paths are "settings." + key, one per accepted key |
| SettingsApi.PathsNameUpdate | backend/settings.py:61 | every path is the prefix followed by an accepted key and carries that key's value |
| SettingsApi.SetNested | backend/settings.py:59-62 | the dotted write fails exactly when the stored settings value is not an object |
| SettingsApi.UpdateSettings | backend/settings.py:50-67 | 400 exactly when the body has no known key, with no write; 404 exactly when there are keys but no user; on success the answer is the stored settings and no other user changes |
| SettingsApi.UpdateThenGet | backend/settings.py:54-67 | after a success, reading the settings gives every written key with the request's value and every setting the body does not write unchanged, known settings included; settings created by the update hold exactly the written keys; no other field of the document changes |
| SettingsApi.UpdateKeepsObjects | backend/settings.py:59-64 | when every stored settings value is an object, it stays so and the update never fails with a 500 |
| MoodApi.NoteOf | backend/mood.py:52 | the note is the body's value whenever the key is present, even a null one, and "" otherwise |
| MoodApi.EntryTime | backend/mood.py:39-46 | a missing or falsy timestamp means now; text is parsed; a non-text value cannot be parsed |
| MoodApi.AddMood | backend/mood.py:35-56 | a missing or falsy mood gives 400 "Mood is required." and an unparsable timestamp a 500, both with no write; otherwise exactly one entry with user, mood, timestamp and note is appended under the new id and answered |
| MoodApi.ReadLimit | backend/mood.py:63 | the limit defaults to 30 |
| MoodApi.Taken | backend/mood.py:67 | the documents taken are limited by the absolute value of a non-zero limit, and are all of them for 0 |
| MoodApi.Serialize | backend/mood.py:71-73 | each field is kept, with the id as a string and the instant as ISO text |
| MoodApi.SerializeAll | backend/mood.py:70-74 | every document is serialized in order |
| MoodApi.Returned | backend/mood.py:64-75 | the listed entries are the first n of the cursor in reverse |
| MoodApi.GetMoods | backend/mood.py:61-75 | an unreadable limit gives a 500; otherwise the answer is the serialized reverse of the cursor's first min(limit, n) documents |
| MoodApi.ReverseSerialized | backend/mood.py:69-75 | the documents serialized in cursor order and then reversed are the listed entries serialized |
| MoodApi.ReturnedOldestFirst | backend/mood.py:64-75 | over a newest-first cursor the list is oldest first, and no entry cut off by the limit is newer than a listed one |
| MoodApi.ReturnedFromCursor | backend/mood.py:70-75 | the listed entries are the cursor's first n, each once |
| MoodApi.ListsOnlyOwnEntries | backend/mood.py:65 | over the query's cursor the listing holds only the caller's entries |
| MoodApi.AddedEntryIsQueried | backend/mood.py:49-65 | an entry logged by a user is among that user's entries the next listing queries |
| Json.Get | backend/mood.py:38-39 | `data.get(key)` is some value exactly when the key is present |
| Json.Truthy | backend/mood.py:41-43 | Python's `bool`: null, false, 0 and the empty text, list and object are false, every other value is true |
| Json.Missing | backend/mood.py:41-43 | `not data.get(key)`: the key is absent or its value is falsy |
| Json.Whitelist | backend/settings.py:55 | the comprehension keeps exactly the body's keys that are allowed, with their values |
| Text.Lower | backend/chatbot.py:32 | lower-casing keeps the length and maps each character |
| Text.LowerIdempotent | frontend/app/resources/page.tsx:116-118 | lower-casing twice is lower-casing once |
| Text.ContainsIff | backend/chatbot.py:34 | `in` on strings holds exactly when the substring occurs at some position |
| Text.Trim | frontend/app/chat/page.tsx:56-60 | the trimmed text is a slice of the input with only whitespace before and after it, is empty exactly for blank input, and has no whitespace at either end |
| Text.TrimIdempotent | frontend/app/chat/page.tsx:56-60 | trimming twice is trimming once |
| Text.SplitWords | backend/chatbot.py:15 | `split()` gives non-empty words free of whitespace |
| Text.SplitTwoWords | backend/chatbot.py:15 | two words with whitespace around and between them split into exactly those two words |
| Text.SplitWordsWordThenBlank | backend/chatbot.py:15 | a word followed only by whitespace splits into that word alone |
| Text.SplitOn | frontend/app/profile/page.tsx:104 | `split(sep)` gives at least one piece, none containing the separator |
| Text.JoinSplitOn | frontend/app/mood-tracker/page.tsx:57 | joining the pieces with the separator gives back the text |
| Text.Join | frontend/app/profile/page.tsx:104 | the reference inverse of JavaScript `split(sep)`: the pieces glued back with the separator; JoinSplitOn states that it undoes SplitOn |
| Text.Decimal | frontend/app/chat/page.tsx:59 | the decimal text is non-empty digits without a leading zero |
| Text.DecimalRoundTrip | frontend/app/chat/page.tsx:59-80 | reading the decimal text back gives the number |
| Lists.Find | frontend/app/mood-tracker/page.tsx:41-58 | `find` gives none exactly when no element passes, and otherwise a passing element of the list |
| Lists.FindIsFirst | frontend/app/mood-tracker/page.tsx:58 | the element found is the first that passes |
| Lists.Filter | frontend/app/resources/page.tsx:114 | every kept element passes, and there are no more than in the input |
| Lists.FilterCounts | frontend/app/mood-tracker/page.tsx:275 | each value occurs as often as in the input when it passes, and not at all otherwise |
| Lists.FilterKeepsOrder | frontend/app/resources/page.tsx:114 | the k-th kept element is the element at the k-th kept position |
| Lists.FilterIndicesExact | frontend/app/resources/page.tsx:114 | the kept positions increase, and a position is kept exactly when its element passes |
| Lists.Reverse | backend/mood.py:75 | `[::-1]` keeps the length and puts element k at position n - 1 - k |

## Left out

- Lower-casing is ASCII-only. Python's `str.lower` and JavaScript's `toLowerCase` also fold non-ASCII letters.
- JWT decoding and expiry (`jwt.decode`) are a parameter of `Auth.Authenticate`. This covers the "Token expired." and "Token is invalid." paths. Password hashing (`backend/auth.py`) is not part of this model.
- MongoDB is an abstract store. Query filters, `find_one` projections and the sort by timestamp are not modelled: get_moods is given its cursor already sorted, and `MoodApi.QueryResult` states what that cursor holds.
- The handlers look users up with `{"_id": user_id}`, passing the id as a string. Against ObjectId keys in a real database this would not match. The model keys users by that string, so lookups succeed.
- `request.get_json()` returning none or a non-object body is not modelled: bodies are objects.
- JSON numbers are integers. A fractional number such as `0.0` or `2.5` in a body has no counterpart, so the mood handler's truthiness test and its storage of such a value are not covered.
- Strings are sequences of Unicode code points. JavaScript strings are UTF-16 code units, so `n[0]` in the profile initials (frontend/app/profile/page.tsx:105) gives half of a surrogate pair for a name starting outside the Basic Multilingual Plane; the model gives the whole character.
- `datetime.fromisoformat`, `utcnow` and `isoformat` are parameters. On the dashboard, timestamps have already been reduced to day numbers, and the string-timestamp branch at backend/dashboard.py:53 is not separate.
- Dashboard moods are strings and the mood tracker's are integers, as in their sources. Trend points carry a day number where the source writes `date.isoformat()`.
- Timezones: the grid mixes UTC `toISOString` with local `getMonth`/`getDay`. The model uses one calendar. `Calendar.DateString`'s year text is exact for years 0..9999; wider years use the six-digit form.
- The mood tracker's hard-coded "January 2024" heading (frontend/app/mood-tracker/page.tsx:107) and its unused `lastDay` (line 50) are not modelled.
- The grid's entries are a parameter in place of the page's constant `moodData`.
- Floating point: `toFixed`, `Math.round` and percentage widths are not modelled. Averages and percentages are exact `real`s.
- MoodTracker.PercentagesSumTo100: stated for moods in 1..5, the only values the page's data holds; the same holds for MoodTracker.DistributionCoversAll and MoodTracker.AverageInRange.
- `setTimeout` timing, `Math.random` and `Date.now()` are parameters. The reply is a separate step with an index into the responses. Overlapping pending replies are allowed by `pendingReplies`, but their interleaving with typing is not modelled.
- Scrolling, refs and rendering of the pages are not modelled.
- Resources: the count text's " for …" and " in …" suffixes (frontend/app/resources/page.tsx:342-343), the detail view and `readTime`/`image` display are not modelled.
- The chat page's and profile page's `moodEmojis` colours and emojis are display only.
- ChatPage.VerySadMessage: checks only mood 1's message. The other moods' messages follow from `ChatPage.MoodLabel` and `ChatPage.MoodMessage`, but they are not written out one by one.
- A failed `int()` on the limit and a failed `fromisoformat` are Flask's default 500 "Internal Server Error" responses. The model gives them that status and text.
- Response status 200/201 on success is not carried: `Ok` stands for it.
- A `settings` field that is not an object makes MongoDB refuse the dotted write. The model answers that with 500.

## Findings

| source | as written | input that shows it | evidently intended | confidence | as-written member | corrected member |
|---|---|---|---|---|---|---|
| backend/profile.py:23 | the user lookup builds its key with `db.users.codec_options.document_class(user_id)`; for the default `MongoClient` of backend/database.py:16 that is `dict`, and `dict` of a non-empty text raises ValueError, which line 30 answers as 401 "Token is invalid." | a header "Bearer t" whose token decodes to the id of a stored user, e.g. the 24-digit hex text auth.py mints | look the decoded id up as it is: 404 "User not found." for an unknown user, otherwise let the request through to get_profile and update_profile | not executed | ProfileApi.ProfileAuthAsWritten, ProfileApi.StoredUserRefused | ProfileApi.ProfileAuthenticate, ProfileApi.GetProfileRequest |
