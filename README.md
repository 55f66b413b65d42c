# freecssdesigns-templates: the page scripts, modelled in Dafny

The repository is a collection of static website templates. Each one ships a small
vanilla-JavaScript page script, and every page also loads a shared preview banner. This
project models the parts of those scripts that hold real logic:

- the simulated chat engine of the chat template (`Chat`, `ChatReplies`, `ChatTyping`,
  `ChatMarkdown`): its thread store, its send guard, the choice of a reply, the
  typewriter cursor and the list and paragraph steps of its markdown formatter;
- the preview banner (`Banner`): the template name and the gallery link taken from the
  page's path, and the dismissal flag for the session;
- the state machines of the template pages:
  - `Sushi`, `Galerie`, `Ember` and `Church` for the restaurant, gallery, coffee-roaster and
    church templates;
  - `Dashboard` for what the two dashboard templates share word for word, with
    `ChainVault` and `Pulse` for what each dashboard adds;
  - `Widgets` for the header scroll flag that two templates share.

Page elements are plain records (`Dom.Element`: a class set, an attribute map, the inline
`display` and the text). Groups of elements that a handler changes in a loop are arrays.
Closure state that handlers update becomes the fields of a class. Browser callbacks are
ordinary method calls, and the clock, the scroll position and the viewport size are
parameters.

Shared JavaScript behaviour is modelled once, in `Text`:

- `String.prototype.trim` over the ECMAScript white-space and line-terminator set;
- the ASCII part of `toLowerCase` and `toUpperCase`;
- `includes`, `split` on a single character, `join` and `indexOf`;
- decimal `String(n)` and `padStart(2, '0')`.

## Model

| member | source | states |
|---|---|---|
| Text.TrimStart | galerie-lumen/scripts/main.js:186 | the result is a suffix of the input, everything dropped is white space, and the result does not start with white space |
| Text.TrimStartKeeps | galerie-lumen/scripts/main.js:186 | a text that does not start with white space is left as it is by the leading trim |
| Text.TrimEnd | chatgpt-clone/script.js:150 | the result is a prefix of the input, everything dropped is white space, and the result does not end with white space |
| Text.Trim | chatgpt-clone/script.js:150 | `trim()` is empty exactly when the text is blank; otherwise it neither starts nor ends with white space |
| Text.TrimBothEnds | chatgpt-clone/script.js:150 | trimming is the leading trim followed by the trailing trim |
| Text.TrimIdempotent | chatgpt-clone/script.js:150 | trimming twice is trimming once |
| Text.ContainsAt | chain-vault/scripts/main.js:149 | `includes` holds exactly when the query is a prefix of some suffix of the text |
| Text.ContainsShorterQuery | chain-vault/scripts/main.js:149 | a text that includes `q + x` includes `q` |
| Text.Contains | chain-vault/scripts/main.js:149 | `includes`, characterized by `ContainsAt` and `ContainsShorterQuery` |
| Text.ToLower | chain-vault/scripts/main.js:145-148 | ASCII `toLowerCase`, which `Dashboard.ToLowerConcat` shows distributes over concatenation |
| Text.Split | ember-roast/scripts/main.js:114 | `split` on a character gives at least one part, and no part contains the separator |
| Text.JoinSplit | ember-roast/scripts/main.js:114 | joining the parts of a split with the separator gives back the text |
| Text.SplitJoin | ember-roast/scripts/main.js:114 | splitting a join of separator-free parts gives back the parts |
| Text.Join | chatgpt-clone/script.js:485 | `join`, the inverse of `Split` by `JoinSplit` and `SplitJoin` |
| Text.IndexOf | template-banner.js:10 | `indexOf` is -1 exactly when the value is absent, and otherwise the position of its first occurrence |
| Text.NatToString | sushi-omakase/scripts/main.js:241-243 | `String(n)` is a non-empty digit string without a leading zero whose value is `n`, of one digit below 10 and two below 100 |
| Text.Pad2 | sushi-omakase/scripts/main.js:242-243 | `padStart(2, '0')` of a number below 100 is two digits whose value is the number |
| Dom.ClearClass | chain-vault/scripts/main.js:78-79 | the loop removes the class from every element and changes nothing else |
| Dom.SelectOnly | chain-vault/scripts/main.js:105-112 | after the loop exactly element `k` carries the class, and nothing else about any element changes |
| Dom.MarkMatching | sushi-omakase/scripts/main.js:100-103 | an element carries the class exactly when its attribute equals the target |
| Dom.CountOnly | chain-vault/scripts/main.js:105-112 | flags that hold exactly at `k` count one |
| Dom.CountNone | chain-vault/scripts/main.js:82-83 | flags that never hold count zero |
| Dom.SelectOnlyLeavesOne | chain-vault/scripts/main.js:105-112 | after a group selection exactly one element carries the class |
| Widgets.ScrollFlag.OnScroll | sushi-omakase/scripts/main.js:39-45 | the flag equals `scrollY > 40`, and the class is written only when the flag changes (galerie-lumen/scripts/main.js:38-44 does the same with `is-scrolled` and the same threshold) |
| Banner.Slug | template-banner.js:9-11 | the slug is the segment right after the first `templates` segment; it is "" exactly when there is no such segment or it is empty |
| Banner.DashesToSpaces | template-banner.js:12 | every "-" becomes a space and every other character stays |
| Banner.CapitalizeWords | template-banner.js:12 | the words start where they started, no word starts with a lower-case letter, a word's first character keeps its letter up to case, and every other character stays |
| Banner.Name | template-banner.js:12 | the name is title-cased: no word starts with a lower-case letter; up to case it is the slug with a space for every "-", and only word starts may differ from that |
| Banner.UpperKeepsWordChars | template-banner.js:12 | upper-casing keeps word characters word characters and is idempotent |
| Banner.NameIdempotent | template-banner.js:12 | deriving the name of a name changes nothing |
| Banner.NameOfChainVault | template-banner.js:12 | the slug `chain-vault` is named "Chain Vault" |
| Banner.GalleryHref | template-banner.js:15-16 | the link climbs three levels when some segment is `pages` and two otherwise |
| Banner.Label | template-banner.js:123 | the label is "Template preview" for an empty name and adds the name in `<strong>` otherwise |
| Banner.PreviewBanner.constructor | template-banner.js:4 | the session entry is recorded and nothing is built yet |
| Banner.PreviewBanner.Run | template-banner.js:4-16 | a set dismissal entry stops the script with nothing built; otherwise the banner is in the page with the derived label and link |
| Banner.PreviewBanner.Show | template-banner.js:141-147 | the banner becomes visible and nothing else changes |
| Banner.PreviewBanner.Dismiss | template-banner.js:150-154 | the banner leaves the page and the entry is "1", so the next run stops at once |
| Chat.Title | chatgpt-clone/script.js:63 | a title is the message itself up to 40 characters, otherwise its first 40 characters and "...", so never longer than 43 |
| Chat.Thread.constructor | chatgpt-clone/script.js:61-65 | a new thread has the given id, the derived title and no messages |
| Chat.FindIndex | chatgpt-clone/script.js:73 | `find` takes the first thread with the id, or none |
| Chat.Find | chatgpt-clone/script.js:72-74 | the active thread is found exactly when the id is set and some thread has it |
| Chat.IsUnset | chatgpt-clone/script.js:155 | `!activeThreadId`: null or empty, the case in which `HandleSend` creates a thread |
| Chat.ChatApp.ActiveThread | chatgpt-clone/script.js:72-74 | an active id always names a stored thread |
| Chat.ChatApp.constructor | chatgpt-clone/script.js:23-26 | no threads, no active thread, no reply in progress |
| Chat.ChatApp.CreateThread | chatgpt-clone/script.js:60-70 | the new thread is put in front of the others, which keep their order, and it becomes the active one |
| Chat.ChatApp.SwitchThread | chatgpt-clone/script.js:87-94 | the chosen thread becomes active, the chat shows and the sidebar closes |
| Chat.ChatApp.NewChat | chatgpt-clone/script.js:105-110 | no thread is active, the welcome shows and the sidebar closes |
| Chat.ChatApp.HandleSend | chatgpt-clone/script.js:149-174 | nothing changes for a blank input or while a reply is in progress; otherwise exactly one user message with the trimmed text is appended to the active thread, created first when none is active |
| Chat.ChatApp.Send | chatgpt-clone/script.js:155-167 | the message goes to a new front thread or to the end of the active thread's messages, no other thread changes, and the input is cleared |
| Chat.ChatApp.GenerateResponse | chatgpt-clone/script.js:297-317 | a reply is in progress, not aborted, bound to the thread active now, and is the one `Choose` selects |
| Chat.ChatApp.FinishGeneration | chatgpt-clone/script.js:331-335 | exactly one assistant message with the reply is appended and both flags are cleared; without a thread the first statement throws and nothing changes |
| Chat.ChatApp.ReplyCycleAsWritten | chatgpt-clone/script.js:297-335 | when the reply-table read yields an inherited value, or no thread was active, no assistant message is added and a reply stays in progress for good; otherwise the active thread gets the chosen reply and the flags clear |
| Chat.ChatApp.ReplyCycle | chatgpt-clone/script.js:172-173 | with the thread bound at the send, the reply always lands on that thread and the page is free for the next message |
| Chat.NewChatDuringReply | chatgpt-clone/script.js:105-110 | as written, "New chat" pressed before the reply starts leaves a reply in progress, and the next send changes nothing |
| ChatReplies.Greeting | chatgpt-clone/script.js:29-34 | "morning" exactly before 12, "afternoon" exactly from 12 to 16, "evening" exactly from 17 |
| ChatReplies.GreetingFollowsTheDay | chatgpt-clone/script.js:29-34 | a later hour never gets an earlier part of the day |
| ChatReplies.Fallback | chatgpt-clone/script.js:337-351 | the fallback is never a scripted reply |
| ChatReplies.FallbackPriority | chatgpt-clone/script.js:337-351 | on the lower-cased text the greeting words win, then the code words, then the identity words, and the generic reply is given exactly when none match |
| ChatReplies.SushiIsAGreeting | chatgpt-clone/script.js:340 | the test for "hi " also matches inside "sushi bar", which is answered as a greeting |
| ChatReplies.Choose | chatgpt-clone/script.js:314-317 | the scripted reply is chosen exactly when the message is one of the table's own prompts |
| ChatReplies.SelectResponse | chatgpt-clone/script.js:314-317 | the typed text is never empty |
| ChatReplies.ExactPromptWins | chatgpt-clone/script.js:314-317 | an exact prompt gets its scripted text even when it holds a keyword; any other message gets the fallback's text |
| ChatReplies.ResponseAsWritten | chatgpt-clone/script.js:314-317 | the reply-table read as written, including inherited properties; `InheritedNameGetsNoText` shows what it yields for the inherited names |
| ChatReplies.InheritedNameGetsNoText | chatgpt-clone/script.js:314-317 | each of the twelve inherited names, such as "constructor", reads an inherited function or object as written, while `Choose` gives it the fallback |
| ChatTyping.Speed | chatgpt-clone/script.js:416-419 | a space or a newline advances two characters, anything else one |
| ChatTyping.SpeedAt | chatgpt-clone/script.js:398 | every tick advances one or two characters |
| ChatTyping.TickEnd | chatgpt-clone/script.js:397-401 | a tick ends at `min(charIdx + speed, length)`, strictly past the cursor while text is left |
| ChatTyping.TicksBounds | chatgpt-clone/script.js:380-414 | a node of `n` characters needs at least `n / 2` and at most `n` ticks |
| ChatTyping.Fill | chatgpt-clone/script.js:375 | every text node from the given one on is emptied |
| ChatTyping.Restore | chatgpt-clone/script.js:383-385 | every text node from the cursor on gets its full text back |
| ChatTyping.Typewriter.constructor | chatgpt-clone/script.js:373-378 | the full texts are recorded, every node starts empty and the cursor is at the start |
| ChatTyping.Typewriter.Tick | chatgpt-clone/script.js:380-414 | on abort every node shows its full text and typing completes; otherwise the node at the cursor shows a longer prefix of its text and the cursor moves on, every earlier node staying full |
| ChatTyping.Typewriter.Run | chatgpt-clone/script.js:380-414 | ticking terminates, and then every node shows its full text |
| ChatMarkdown.LineLength | chatgpt-clone/script.js:472 | the length of the line at the start of a text: no line terminator in it, and one right after it |
| ChatMarkdown.LineLengthOf | chatgpt-clone/script.js:472 | a line followed by a terminator or the end has its own length |
| ChatMarkdown.ListLine | chatgpt-clone/script.js:472 | a line changes exactly when it starts with "- " and has content after it |
| ChatMarkdown.ListLineKeepsLine | chatgpt-clone/script.js:472 | the rewrite of a line adds no line terminator |
| ChatMarkdown.ListLineIdempotent | chatgpt-clone/script.js:472 | rewriting a list line twice is rewriting it once |
| ChatMarkdown.ListStepIdempotent | chatgpt-clone/script.js:472 | the list-item replacement over a whole text is idempotent |
| ChatMarkdown.ListStep | chatgpt-clone/script.js:472 | the list-item replacement over a whole text, whose properties `ListStepByLine` and `ListStepIdempotent` state |
| ChatMarkdown.ListStepByLine | chatgpt-clone/script.js:472 | the replacement rewrites each line of the text by `ListLine` and keeps every line terminator where it was |
| ChatMarkdown.LastClose | chatgpt-clone/script.js:473 | the last `</li>` that fits, or none |
| ChatMarkdown.ItemAt | chatgpt-clone/script.js:473 | a list item found at a position starts with `<li>`, is at least nine characters long and ends with `</li>`, or with `</li>` and a newline |
| ChatMarkdown.ItemAtExact | chatgpt-clone/script.js:473 | an item is found at a position exactly when `<li>` starts there and a `</li>` lies in the rest of that line; it then ends after the last such `</li>`, and after the newline that follows it, if one does |
| ChatMarkdown.RunEnd | chatgpt-clone/script.js:473 | a run of list items ends where no further item starts |
| ChatMarkdown.Pieces | chatgpt-clone/script.js:473 | every wrapped piece is a run that starts with `<li>` |
| ChatMarkdown.PiecesHead | chatgpt-clone/script.js:473 | where an item starts, the next piece is the whole run of items up to `RunEnd`, wrapped; anywhere else it is the one character, kept |
| ChatMarkdown.PiecesCoverText | chatgpt-clone/script.js:473 | the pieces, put back together, are the text |
| ChatMarkdown.WrapListsWithoutItems | chatgpt-clone/script.js:473 | a text with no `<li>` is not changed by the list wrapping |
| ChatMarkdown.WrapLists | chatgpt-clone/script.js:473 | the list wrap, whose properties `WrapListsWrapsRun`, `PiecesCoverText` and `WrapListsWithoutItems` state |
| ChatMarkdown.WrapListsWrapsRun | chatgpt-clone/script.js:473 | a text that starts with an item starts, after the wrap, with the whole run of items inside `<ul>` and `</ul>` |
| ChatMarkdown.DropNewlines | chatgpt-clone/script.js:476 | leading newlines are dropped, and only those |
| ChatMarkdown.SplitBlocks | chatgpt-clone/script.js:476 | splitting on two or more newlines gives at least one block, and no block holds a blank line |
| ChatMarkdown.SplitBlocksJoin | chatgpt-clone/script.js:476 | joining the blocks with a blank line gives the text with each newline run shortened to two |
| ChatMarkdown.BreakLines | chatgpt-clone/script.js:484 | the result is the text's lines, as split at each newline, joined by `<br>`; so no newline is left, and only an empty text gives an empty result |
| ChatMarkdown.Paragraph | chatgpt-clone/script.js:484 | a paragraph is `<p>`, the block's lines joined by `<br>`, and `</p>`, so it has no newline |
| ChatMarkdown.FormatBlock | chatgpt-clone/script.js:477-484 | a trimmed block that starts with `<ul>`, `<pre>`, `<div class="code-block` or `<hr` is kept as it is; every other one becomes a paragraph |
| ChatMarkdown.FormatBlocks | chatgpt-clone/script.js:476-485 | each block is formatted on its own |
| ChatMarkdown.ParagraphsAreLines | chatgpt-clone/script.js:476-485 | when no block is kept as it is, the lines of the result are exactly the formatted blocks |
| ChatMarkdown.Paragraphs | chatgpt-clone/script.js:476-485 | the paragraph step: the formatted blocks joined by newlines, whose lines `ParagraphsAreLines` gives |
| Sushi.MobileNav.Toggle | sushi-omakase/scripts/main.js:58-62 | the toggle flips, and the overlay and the body class follow it |
| Sushi.MobileNav.LinkClick | sushi-omakase/scripts/main.js:65-72 | a link click clears all three |
| Sushi.MobileNav.KeyDown | sushi-omakase/scripts/main.js:75-81 | Escape while open clears all three; anything else changes nothing |
| Sushi.MenuTabs.Click | sushi-omakase/scripts/main.js:86-106 | with no panels there is no handler and nothing changes; otherwise exactly the clicked button is active, and a panel is active exactly when its `data-panel` equals the button's `data-tab` |
| Sushi.FaqClick | sushi-omakase/scripts/main.js:118-128 | every item closes, and the clicked item opens exactly when it was closed |
| Sushi.FaqAtMostOneOpen | sushi-omakase/scripts/main.js:118-128 | after a click no item is open when the clicked one was open, and exactly one otherwise |
| Sushi.IsEmailMatches | sushi-omakase/scripts/main.js:169-170 | the e-mail test holds exactly when the text matches `^[^\s@]+@[^\s@]+\.[^\s@]+$` |
| Sushi.IsEmailIsMatch | sushi-omakase/scripts/main.js:169-170 | a text that passes the test matches the pattern |
| Sushi.MatchIsEmail | sushi-omakase/scripts/main.js:169-170 | a text that matches the pattern passes the test |
| Sushi.FieldFails | sushi-omakase/scripts/main.js:162-174 | a field fails exactly when it is blank, or is a non-blank e-mail field that does not match |
| Sushi.CheckedFlagsFailures | sushi-omakase/scripts/main.js:159-175 | exactly the failing fields are flagged, and their values stay |
| Sushi.AllPassMeansEveryField | sushi-omakase/scripts/main.js:157-175 | the form is valid exactly when every field passes |
| Sushi.AllPassEveryField | sushi-omakase/scripts/main.js:157-175 | a valid form has no failing field |
| Sushi.SomeFieldFails | sushi-omakase/scripts/main.js:157-175 | an invalid form has a failing field |
| Sushi.Validate | sushi-omakase/scripts/main.js:156-175 | the loop's `valid` and the fields' flags are those of the specification |
| Sushi.Unflag | sushi-omakase/scripts/main.js:199-201 | every field's flag is cleared and nothing else changes |
| Sushi.Form.Submit | sushi-omakase/scripts/main.js:152-188 | without the message element nothing happens; an invalid form shows the error and leaves the button as it was; a valid one shows "Sending..." on a disabled button |
| Sushi.Form.Sent | sushi-omakase/scripts/main.js:190-201 | the success message shows, the button is restored and every flag is cleared |
| Sushi.FormatDateShape | sushi-omakase/scripts/main.js:244 | a date is written as four year digits, "-", two month digits, "-" and two day digits |
| Sushi.MinDateOverflows | sushi-omakase/scripts/main.js:240-244 | as written, on 31 January the minimum is the invalid date 2025-01-32 |
| Sushi.MinDateAsWritten | sushi-omakase/scripts/main.js:240-244 | the minimum as written, with no month rollover; `MinDateOverflows` shows the invalid date and `MinDate` where it agrees with the corrected one |
| Sushi.Tomorrow | sushi-omakase/scripts/main.js:243 | the day after a valid date is a valid later date |
| Sushi.TomorrowIsNext | sushi-omakase/scripts/main.js:243 | no valid date lies strictly between a date and the day after it |
| Sushi.MinDate | sushi-omakase/scripts/main.js:240-244 | the minimum is tomorrow's date, and it agrees with the code as written on every day but the last of a month |
| Galerie.MobileNav.Toggle | galerie-lumen/scripts/main.js:56-60 | `is-active` and `is-open` flip, the overflow is hidden exactly when the nav is open, and the three stay in step |
| Galerie.MobileNav.LinkClick | galerie-lumen/scripts/main.js:63-70 | a link click closes everything |
| Galerie.MobileNav.KeyDown | galerie-lumen/scripts/main.js:73-79 | Escape while open closes everything; anything else changes nothing |
| Galerie.FindGrid | galerie-lumen/scripts/main.js:89-93 | the grid is the first following sibling with `grid` or `masonry`, and none exactly when no sibling has either |
| Galerie.ApplyFilter | galerie-lumen/scripts/main.js:104-116 | an item is shown with `is-revealed` exactly when the filter is "all" or its category; every other item gets `display: none` |
| Galerie.FilterKeepsCategory | galerie-lumen/scripts/main.js:104-116 | showing or hiding an item does not change whether the filter selects it |
| Galerie.FilterTabs.Click | galerie-lumen/scripts/main.js:96-117 | exactly the clicked tab is active; an item the tab's `data-filter` selects gets `display` "" and `is-revealed`, any other item `display: none`, and nothing else about an item changes |
| Galerie.DigitValue | galerie-lumen/scripts/main.js:186 | a character's digit value is at most 36, and its decimal value for a decimal digit |
| Galerie.LeadingDigits | galerie-lumen/scripts/main.js:186 | the digits `parseInt` reads are the longest prefix of digits below the radix |
| Galerie.ValueInDecimal | galerie-lumen/scripts/main.js:186 | read in radix 10, a digit string has its decimal value |
| Galerie.LeadingDigitsStop | galerie-lumen/scripts/main.js:186 | reading stops at the first character that is not a digit |
| Galerie.ParseUnsigned | galerie-lumen/scripts/main.js:186 | the unsigned part of `parseInt`, with the `0x` prefix read as base 16; `ParseUnsignedOfNumeral` gives its value on a numeral |
| Galerie.ParseInt | galerie-lumen/scripts/main.js:186 | `parseInt` without a radix: leading white space and a sign, then the unsigned part; `ParseIntUnsigned` and `ParseIntOfNumeral` state its value |
| Galerie.ParseUnsignedOfNumeral | galerie-lumen/scripts/main.js:186 | a numeral followed by a unit reads as its number |
| Galerie.ParseIntUnsigned | galerie-lumen/scripts/main.js:186 | for a text that starts with a digit, `parseInt` is its unsigned reading, with no sign or white space to skip |
| Galerie.ParseIntOfNumeral | galerie-lumen/scripts/main.js:186 | `parseInt` of a number written in decimal and followed by a unit such as "px" is that number |
| Galerie.NavOffset | galerie-lumen/scripts/main.js:186 | the offset is never 0: it is 76 when parsing gives NaN or 0, and the parsed value otherwise |
| Galerie.NavOffsetOfPixels | galerie-lumen/scripts/main.js:186 | a height of `n` pixels gives the offset `n`, and an unset height gives 76 |
| Ember.Header.OnScroll | ember-roast/scripts/main.js:32-38 | the class is set exactly when the page is scrolled past 60 |
| Ember.MobileNav.Toggle | ember-roast/scripts/main.js:50-56 | `open` and `mobile-open` flip together, the overflow is hidden exactly when the links are open, and the three stay in step |
| Ember.MobileNav.LinkClick | ember-roast/scripts/main.js:59-65 | a link click clears both classes and the overflow |
| Ember.ShowCategories | ember-roast/scripts/main.js:82-88 | a category is displayed exactly when the selection is "all" or its category |
| Ember.MenuTabs.Click | ember-roast/scripts/main.js:69-90 | exactly the clicked tab is active; a category the tab's `data-tab` selects gets `display` "", any other "none", and nothing else about a category changes |
| Ember.ClosingTime | ember-roast/scripts/main.js:114 | a closing time exists exactly when the hours hold the en dash |
| Ember.ClosingTimeOf | ember-roast/scripts/main.js:114 | the closing time of "opens – closes" is `closes` |
| Ember.TrimOfTrimmed | ember-roast/scripts/main.js:114 | a text with no white space at either end is its own trim |
| Ember.ClosingTimes | ember-roast/scripts/main.js:102-110 | weekdays close at 6:00 PM, Saturday at 5:00 PM and Sunday at 3:00 PM |
| Ember.EveryDayHasAClosingTime | ember-roast/scripts/main.js:98-110 | every day in the day list has hours with a dash |
| Ember.UpdateTodayRow | ember-roast/scripts/main.js:112-116 | with at least two cells the row reads "Today (day)" and "Open until " with the closing time; with fewer nothing is written |
| Dashboard.Sidebar.constructor | chain-vault/scripts/main.js:6-8 | the elements found are recorded, all closed |
| Dashboard.Sidebar.Open | chain-vault/scripts/main.js:10-14 | the sidebar class, the overlay class and the hidden overflow are set together |
| Dashboard.Sidebar.Close | chain-vault/scripts/main.js:16-20 | all three are cleared together |
| Dashboard.Sidebar.ToggleClick | chain-vault/scripts/main.js:22-28 | an open sidebar closes and a closed one opens, the flags staying in step (pulse-analytics/scripts/main.js:10-28 is the same code) |
| Dashboard.Sidebar.OverlayClick | chain-vault/scripts/main.js:30 | an overlay click always closes the sidebar |
| Dashboard.Sidebar.Resize | chain-vault/scripts/main.js:155-159 | a width above 1024 closes the sidebar, and a narrower one changes nothing (as at pulse-analytics/scripts/main.js:71-75) |
| Dashboard.FindById | chain-vault/scripts/main.js:81-84 | the panel found is the first one with the id, or none exactly when the id is empty or no panel has it |
| Dashboard.IdTabs.Click | chain-vault/scripts/main.js:74-85 | exactly the clicked tab is active, and exactly the panel whose id is its `data-tab` is active, or none (the settings tabs at pulse-analytics/scripts/main.js:36-47 too) |
| Dashboard.OnePanelAtMost | chain-vault/scripts/main.js:91-102 | after a click one panel is active when the id is not empty and some panel has it, and none otherwise |
| Dashboard.FilterRows | chain-vault/scripts/main.js:144-151 | a row is displayed exactly when its lower-cased text contains the lower-cased query, and nothing else about it changes (the customer search at pulse-analytics/scripts/main.js:50-60 too) |
| Dashboard.EmptyQueryMatchesAll | chain-vault/scripts/main.js:149 | an empty query shows every row |
| Dashboard.ToLowerConcat | chain-vault/scripts/main.js:145-148 | lower-casing distributes over concatenation |
| Dashboard.LongerQueryShowsFewer | chain-vault/scripts/main.js:149 | a row that matches a longer query matches every prefix of it |
| ChainVault.QuickPctClick | chain-vault/scripts/main.js:105-112 | exactly the clicked quick-percentage button is active |
| ChainVault.OrderTypeClick | chain-vault/scripts/main.js:162-169 | exactly the clicked order-type button is active |
| ChainVault.Revealed | chain-vault/scripts/main.js:130-136 | a text holding "••" becomes the full key, and any other text the masked key |
| ChainVault.RevealTwice | chain-vault/scripts/main.js:130-136 | two clicks from the masked key show the full key and then the masked key again |
| ChainVault.ApiKeyRow.Click | chain-vault/scripts/main.js:122-138 | with the key element and both attributes present, the text swaps and the button reads "Hide" or "Reveal"; otherwise nothing changes |
| ChainVault.CopiedAddress | chain-vault/scripts/main.js:35-38 | the address is `data-address`, else the trimmed wallet text, and it is "" exactly when neither gives one |
| ChainVault.Copies | chain-vault/scripts/main.js:35-38 | nothing is copied exactly when the address is empty |
| ChainVault.AriaChecked | chain-vault/scripts/main.js:115-119 | `aria-checked` mirrors the checked state and nothing else changes |
| Pulse.SetAll | pulse-analytics/scripts/main.js:92-97 | every stat value gets the given style |
| Pulse.StatReveal.constructor | pulse-analytics/scripts/main.js:92-97 | with stat values and observer support every value starts hidden |
| Pulse.StatReveal.OnEntries | pulse-analytics/scripts/main.js:81-91 | the first intersecting entry sets `observed` and shows every value; later entries and later calls change nothing |
| Church.MobileNav.ToggleMenu | Church/scripts/main.js:26-31 | `isOpen` flips, and both classes and the overflow follow it |
| Church.MobileNav.LinkClick | Church/scripts/main.js:35-39 | a link click closes an open menu and never opens one |
| Church.MobileNav.KeyDown | Church/scripts/main.js:42-44 | Escape closes an open menu; no key opens it |
| Church.HeaderScroll.constructor | Church/scripts/main.js:54-57 | the set-up records the position and the header's classes as loaded, with no update pending |
| Church.HeaderScroll.OnScroll | Church/scripts/main.js:86-91 | a scroll asks for an update unless one is pending, so at most one is pending |
| Church.HeaderScroll.UpdateHeader | Church/scripts/main.js:59-84 | the header hides exactly when scrolling down past 100; a transparent header has exactly one of its two backgrounds, solid exactly past half the viewport; the position is recorded |
| Church.Marked | Church/scripts/main.js:171-178 | `error` is on exactly the blank fields |
| Church.ContactForm.Validate | Church/scripts/main.js:170-178 | the form is valid exactly when no required field is blank, and the flags are those of `Marked` |
| Church.ContactForm.Submit | Church/scripts/main.js:162-189 | an invalid form alerts and leaves the button as it was; a valid one shows "Sending..." on a disabled button |
| Church.ContactForm.Sent | Church/scripts/main.js:191-196 | the thank-you alert shows and the button is restored |
| Church.Decide | Church/scripts/main.js:232-248 | a call runs at once exactly when `remaining <= 0` or `remaining > wait`; it schedules only when no trailing call is pending, with delay `remaining` |
| Church.DecideOnForwardClock | Church/scripts/main.js:232-248 | on a clock that does not go back, a call runs at once exactly when `wait` has passed since the last run, and a trailing call is due exactly when it will have passed |
| Church.Throttle.constructor | Church/scripts/main.js:227-229 | no trailing call pending and `previous` is 0 |
| Church.Throttle.Call | Church/scripts/main.js:229-248 | running at once cancels the pending call and records `now`; otherwise a call is scheduled only when none is pending |
| Church.Throttle.Fire | Church/scripts/main.js:242-246 | the trailing call records its time, clears the timer and runs |

## Left out

- Rendering is not modelled: `innerHTML`, `escapeHtml`, the SVG and CSS strings, the
  typing indicator and the DOM the chat and the banner build.
- The code block, inline code, bold, italic and horizontal-rule replacements of
  `formatMarkdown` are not modelled. Only the list and paragraph steps are.
- Timing is not modelled: `setTimeout`, `requestAnimationFrame`, the random delay of the
  typewriter, `debounce` and the fake latency of the form submits. Callbacks are explicit
  calls, and the throttle's timer is a boolean.
- The throttle does not model the arguments a trailing call is made with, or the `this`
  it is applied to.
- Floating-point geometry is left out: parallax, tilt, spotlight, smooth-scroll targets
  and `getBoundingClientRect`. Scroll positions and widths are exact `real` numbers.
- Browser services are left out: the IntersectionObserver schedule, the clipboard and its
  `execCommand` fallback, and `form.reset`. sessionStorage is a field. The clock and the
  current hour are inputs.
- Thread ids come from `Date.now()`. They are an input, and are not assumed unique.
- `abortTyping` is never set to true by the chat script. The abort path of `tick` is
  modelled as a parameter all the same.
- Chat.ChatApp: a reply is stored as the reply chosen, not as its text.
- Chat.Title: lengths count code points, while `length` and `slice(0, 40)` count UTF-16
  code units. A message with characters outside the Basic Multilingual Plane, such as 21
  emoji, is cut elsewhere (JavaScript keeps 20 emoji and adds "...", the model keeps all 21).
- ChatTyping: the typewriter steps through code points, not UTF-16 code units, so the
  source's splitting of a surrogate pair in the middle of a tick is not modelled.
- Text.ToLower: only the ASCII letters are mapped. Unicode case mapping is left out.
- Banner.CapitalizeWords: word characters are the ASCII `\w` class, as in the
  JavaScript regex without the `u` flag.
- Dashboard.FindById: `getElementById` is looked up among the group's own panels. An
  element with that id elsewhere in the page is not modelled.
- Galerie.NavOffset: `parseInt` is modelled on exact integers. The precision loss above
  2^53 is not modelled.
- Pulse.StatReveal: the `transition` style is not modelled.
- Church.HeaderScroll: a missing header, and a page without the toggle or the nav, make
  the set-up return early. The model assumes the elements exist.
- Church.ContactForm: `initContactForm` is defined but never called from the page's
  start-up. It is modelled as written.
- These page parts are left out: the reveal-on-scroll animations, parallax, tilt,
  spotlight, the smooth scroll, the current-year text, lazy loading, the newsletter forms
  and the reservation form's other fields.
- The azure-tide-resort, domaine-noir and crestline-realty scripts are not modelled. They
  only add scroll reveals, a threshold class, a nav toggle and a timed fake submit, which
  the modelled templates already cover.

## Findings

| source | as written | input that shows it | evidently intended | confidence | as-written member | corrected member |
|---|---|---|---|---|---|---|
| chatgpt-clone/script.js:314-317 | `responses[userMessage]` reads inherited properties of the reply table | the message "constructor" yields the `Object` function; `formatMarkdown` calls `replace` on it and throws (line 454), so `finishGeneration` never runs, `isGenerating` stays true and every later send is refused (line 151), as `Chat.ChatApp.ReplyCycleAsWritten` states | only the table's own prompts get a scripted reply; every other message gets the fallback | not executed | ChatReplies.InheritedNameGetsNoText | ChatReplies.SelectResponse |
| chatgpt-clone/script.js:300 | the reply's thread is looked up when the reply starts, 400 ms after the send (line 173) | send a message and press "New chat" within 400 ms: no thread is active, `thread.messages.push` throws (line 332), `isGenerating` stays true and every later send is refused | the reply lands on the thread the message was sent in | not executed | Chat.NewChatDuringReply | Chat.ChatApp.ReplyCycle |
| sushi-omakase/scripts/main.js:240-244 | tomorrow is today's day of the month plus one, with no month rollover | on 31 January 2025 the minimum date is "2025-01-32" | the minimum date is the next calendar day | not executed | Sushi.MinDateOverflows | Sushi.MinDate |
