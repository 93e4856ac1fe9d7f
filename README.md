# Support dashboard core, modelled in Dafny

This project models the logic at the core of the support dashboard of
cogito-craft-nexus. That logic lives in three React components: the
knowledge base, the analytics page and the ticket detail pane. The
components render data fetched from a hosted database. Everything they
compute from that data, and every state change their handlers make, is
modelled here.

- `Seqs.dfy`: the JavaScript array operations the components rely on, with
  their meaning proved. These are `filter`, `map`, `slice` with negative and
  out-of-range indices, and `[...new Set(xs)]` (de-duplication in
  first-occurrence order).
- `Strings.dfy`: the string operations, over `seq<char>`:
  - `trim`, over the explicit ECMAScript whitespace set;
  - `toLowerCase`, restricted to ASCII;
  - `includes`;
  - `split` by one character, and `join`;
  - `replace` with a one-character string pattern, which replaces only the first occurrence.
- `Records.dfy`: the database rows (customer, ticket, message), an `Option`
  for nullable values, and `Outcome`, the two ways an awaited remote call can
  settle.
- `KnowledgeBase.dfy`:
  - the search and category filter;
  - the comma-separated tag parser;
  - the de-duplicated category buttons;
  - the create-button guard;
  - the component state, as class `KnowledgeBaseView`.
- `Analytics.dfy`:
  - the headline counts;
  - the status, priority and category histograms;
  - the five most recent tickets;
  - the pie-slice colours.

  The analytics page stores nothing, so this part is pure functions and lemmas.
- `TicketDetails.dfy`: the prompt sent to the AI function, the send-button
  guard, the status label, and the pane's state as class `TicketDetailsView`.
  The class's handlers change the state step by step, as the component's
  setters do.

Remote calls are not modelled as behaviour. Their result is a parameter of the
method that awaits them: a `bool` for "the insert or update succeeded", or an
`Outcome` carrying the returned rows or text. Each handler runs as one atomic
step.

The create button checks only that title, content and category are
non-empty strings (`KnowledgeBase.tsx:145`), so whitespace-only fields enable
it. `KnowledgeBase.CanCreate` and `KnowledgeBase.BlankFieldsEnableCreate`
state this behaviour.

The dashboard keeps one ticket pane and passes it each newly selected ticket
(`Dashboard.tsx:84`). The pane's state therefore survives a change of ticket:
`TicketDetails.TicketDetailsView.SelectTicket` changes only the ticket, and
the draft, the suggestion and the loaded messages stay until a handler
replaces them.

## Model

| member | source | states |
|---|---|---|
| Seqs.Filter | cogito-craft-nexus/src/components/dashboard/KnowledgeBase.tsx:60-68 | `filter` keeps exactly the elements satisfying the predicate, every copy of each (multiset count), in their original order (a subsequence), and never grows the list |
| Seqs.FilterTwice | cogito-craft-nexus/src/components/dashboard/KnowledgeBase.tsx:59-69 | filtering by one predicate and then another equals filtering once by their conjunction |
| Seqs.FilterKeepsAll | cogito-craft-nexus/src/components/dashboard/KnowledgeBase.tsx:82 | filtering by a predicate every element satisfies returns the list unchanged |
| Seqs.Slice | cogito-craft-nexus/src/components/dashboard/TicketDetails.tsx:119 | `slice(start, end)` is the contiguous piece of `max(0, to - from)` elements starting at `from`, where `from` and `to` are the start and end resolved as `slice` indices |
| Seqs.Map | cogito-craft-nexus/src/components/dashboard/KnowledgeBase.tsx:104 | `map` keeps the length and applies the function at every index |
| Seqs.RelativeIndex | cogito-craft-nexus/src/components/dashboard/TicketDetails.tsx:119 | a `slice` index counts back from the end when negative and is clamped to `[0, length]` |
| Seqs.Distinct | cogito-craft-nexus/src/components/dashboard/KnowledgeBase.tsx:104 | the `Set` spread has no duplicates and holds exactly the values of the input |
| Seqs.DistinctFirstOccurrenceOrder | cogito-craft-nexus/src/components/dashboard/KnowledgeBase.tsx:104 | the de-duplicated values come in the order of their first occurrence in the input |
| Seqs.SubsequenceTrans | cogito-craft-nexus/src/components/dashboard/KnowledgeBase.tsx:57-69 | a subsequence of a subsequence is a subsequence, so chaining the two filters keeps the original order |
| Strings.Trim | cogito-craft-nexus/src/components/dashboard/KnowledgeBase.tsx:82 | `trim` returns a string with no whitespace at either end, and returns the empty string exactly when the input is all whitespace |
| Strings.TrimIsContiguousPiece | cogito-craft-nexus/src/components/dashboard/KnowledgeBase.tsx:82 | the trimmed string is a contiguous piece of the input |
| Strings.TrimDropsOnlyWhitespace | cogito-craft-nexus/src/components/dashboard/KnowledgeBase.tsx:82 | what `trim` drops before and after that piece is whitespace |
| Strings.TrimTrimmed | cogito-craft-nexus/src/components/dashboard/KnowledgeBase.tsx:82 | a string with no whitespace at either end is its own trim |
| Strings.TrimIdempotent | cogito-craft-nexus/src/components/dashboard/KnowledgeBase.tsx:82 | trimming twice is trimming once |
| Strings.Lower | cogito-craft-nexus/src/components/dashboard/KnowledgeBase.tsx:61-63 | `toLowerCase` keeps the length and lower-cases each ASCII letter in place |
| Strings.Includes | cogito-craft-nexus/src/components/dashboard/KnowledgeBase.tsx:61-63 | `includes` never finds a needle longer than the string; `IncludesIffOccurs` states its full meaning |
| Strings.IncludesIffOccurs | cogito-craft-nexus/src/components/dashboard/KnowledgeBase.tsx:61-63 | `includes` holds exactly when the needle occurs at some position |
| Strings.IncludesNeedsFirstChar | cogito-craft-nexus/src/components/dashboard/KnowledgeBase.tsx:61-63 | a string lacking the needle's first character does not include the needle |
| Strings.Split | cogito-craft-nexus/src/components/dashboard/KnowledgeBase.tsx:82 | `split` returns at least one piece, and no piece contains the separator |
| Strings.Join | cogito-craft-nexus/src/components/dashboard/TicketDetails.tsx:119 | `join` puts the separator between consecutive pieces; `JoinSplit` and `SplitJoin` state the round trips with `split` |
| Strings.JoinSplit | cogito-craft-nexus/src/components/dashboard/KnowledgeBase.tsx:82 | joining the pieces of a split with the separator gives back the string |
| Strings.SplitJoin | cogito-craft-nexus/src/components/dashboard/TicketDetails.tsx:119 | splitting a join gives back the pieces, when no piece contains the separator |
| Strings.ReplaceFirst | cogito-craft-nexus/src/components/dashboard/TicketDetails.tsx:153 | `replace` with a string pattern changes only the first occurrence; with no occurrence the string is unchanged |
| Strings.ReplaceFirstAfter | cogito-craft-nexus/src/components/dashboard/TicketDetails.tsx:153 | the occurrence that is replaced is the one after the longest prefix free of the pattern |
| KnowledgeBase.MatchesSearch | cogito-craft-nexus/src/components/dashboard/KnowledgeBase.tsx:60-64 | the search predicate: the lower-cased term is included in the lower-cased title, content or some tag; `MatchesSearchIffHit` proves it equals the occurrence-based reference `SearchHit` |
| KnowledgeBase.FilterArticles | cogito-craft-nexus/src/components/dashboard/KnowledgeBase.tsx:56-72 | the result keeps the articles' order; an empty term with category "all" returns the list unchanged; with a category selected, every kept article has exactly that category |
| KnowledgeBase.MatchesSearchIffHit | cogito-craft-nexus/src/components/dashboard/KnowledgeBase.tsx:60-64 | the search predicate holds exactly when the lower-cased term occurs in the lower-cased title, in the content, or in some tag; a null tag list contributes nothing |
| KnowledgeBase.FilterArticlesKeepsExactlyShown | cogito-craft-nexus/src/components/dashboard/KnowledgeBase.tsx:56-72 | every copy of an article that is a search hit in the selected category is kept, and nothing else |
| KnowledgeBase.SearchThenCategoryIsIntersection | cogito-craft-nexus/src/components/dashboard/KnowledgeBase.tsx:59-69 | search followed by the category filter is one filter by the conjunction of the two predicates |
| KnowledgeBase.SearchOnlyKeepsHits | cogito-craft-nexus/src/components/dashboard/KnowledgeBase.tsx:59-64 | with category "all", a listed article is shown exactly when it is a search hit |
| KnowledgeBase.BillSearchExample | cogito-craft-nexus/src/components/dashboard/KnowledgeBase.tsx:60-64 | searching "bill" over "Billing cycle" and "General FAQ" keeps only the first, because the match ignores case |
| KnowledgeBase.ParseTags | cogito-craft-nexus/src/components/dashboard/KnowledgeBase.tsx:82 | each parsed tag is non-empty, has no whitespace at either end and holds no comma; the tags keep the order of the comma-separated pieces, and every non-empty trimmed piece is kept, each as often as it occurs |
| KnowledgeBase.TagsRoundTrip | cogito-craft-nexus/src/components/dashboard/KnowledgeBase.tsx:82 | a list of such tags, written comma-separated, parses back to itself |
| KnowledgeBase.SingleTag | cogito-craft-nexus/src/components/dashboard/KnowledgeBase.tsx:82 | input without a comma gives its trim as the only tag, or no tag when the input is blank |
| KnowledgeBase.Categories | cogito-craft-nexus/src/components/dashboard/KnowledgeBase.tsx:104 | each article category appears once, and only article categories appear |
| KnowledgeBase.CategoriesInFirstOccurrenceOrder | cogito-craft-nexus/src/components/dashboard/KnowledgeBase.tsx:104 | the category buttons come in the order in which each category first appears |
| KnowledgeBase.CanCreate | cogito-craft-nexus/src/components/dashboard/KnowledgeBase.tsx:145 | the create button is enabled when title, content and category are non-empty strings; `ClickCreate` issues an insert exactly when it holds |
| KnowledgeBase.NewRow | cogito-craft-nexus/src/components/dashboard/KnowledgeBase.tsx:78-83 | the inserted row keeps title, content and category as typed, untrimmed; its tags are non-empty, trimmed and comma-free |
| KnowledgeBase.BlankFieldsEnableCreate | cogito-craft-nexus/src/components/dashboard/KnowledgeBase.tsx:143-146 | a form whose title, content and category are a space, a tab and a line feed passes the create guard although every field is blank, and creates a row with those fields and no tags |
| KnowledgeBase.KnowledgeBaseView.constructor | cogito-craft-nexus/src/components/dashboard/KnowledgeBase.tsx:15-26 | the view starts with no articles, an empty search, category "all", the dialog closed and an empty form |
| KnowledgeBase.KnowledgeBaseView.ApplyFilter | cogito-craft-nexus/src/components/dashboard/KnowledgeBase.tsx:33-35 | the filter effect makes the filtered list equal to `FilterArticles` of the current articles, term and category |
| KnowledgeBase.KnowledgeBaseView.FetchArticles | cogito-craft-nexus/src/components/dashboard/KnowledgeBase.tsx:37-54 | a successful fetch replaces the articles (a null result loads as none); a failed fetch changes nothing; the filtered list stays in step with the articles |
| KnowledgeBase.KnowledgeBaseView.SetSearchTerm | cogito-craft-nexus/src/components/dashboard/KnowledgeBase.tsx:162 | a new search term is stored and the filtered list is recomputed |
| KnowledgeBase.KnowledgeBaseView.SelectCategory | cogito-craft-nexus/src/components/dashboard/KnowledgeBase.tsx:170-179 | a category button stores its category and the filtered list is recomputed |
| KnowledgeBase.KnowledgeBaseView.SetDialogOpen | cogito-craft-nexus/src/components/dashboard/KnowledgeBase.tsx:110 | opening or closing the dialog changes only `isDialogOpen` |
| KnowledgeBase.KnowledgeBaseView.EditForm | cogito-craft-nexus/src/components/dashboard/KnowledgeBase.tsx:122-141 | an input's `onChange` replaces the form and changes nothing else |
| KnowledgeBase.KnowledgeBaseView.CreateArticle | cogito-craft-nexus/src/components/dashboard/KnowledgeBase.tsx:74-102 | the inserted row is the form with its tags parsed; on success the form is reset to four empty strings and the dialog closes; on failure neither changes |
| KnowledgeBase.KnowledgeBaseView.ClickCreate | cogito-craft-nexus/src/components/dashboard/KnowledgeBase.tsx:143-146 | an insert is issued exactly when title, content and category are all non-empty |
| Analytics.CountWith | cogito-craft-nexus/src/components/dashboard/Analytics.tsx:20-21 | a `filter(...).length` count is at most the number of tickets, and is zero exactly when no ticket has that value |
| Analytics.CountWithIsFilterLength | cogito-craft-nexus/src/components/dashboard/Analytics.tsx:20-21 | the recursive count equals the length of the filtered list, as the source computes it |
| Analytics.TotalTickets | cogito-craft-nexus/src/components/dashboard/Analytics.tsx:19 | the Total Tickets card shows the number of tickets; `HeadlineCountsBounded` bounds the other two counts by it |
| Analytics.OpenTickets | cogito-craft-nexus/src/components/dashboard/Analytics.tsx:20 | the open count is at most the number of tickets, and zero exactly when no ticket is open |
| Analytics.ResolvedTickets | cogito-craft-nexus/src/components/dashboard/Analytics.tsx:21 | the resolved count is at most the number of tickets, and zero exactly when no ticket is resolved |
| Analytics.HeadlineCountsBounded | cogito-craft-nexus/src/components/dashboard/Analytics.tsx:19-21 | the open count and the resolved count are each at most the total, and so is their sum |
| Analytics.CountInCons | cogito-craft-nexus/src/components/dashboard/Analytics.tsx:25-30 | counting one value and then a list of other values gives the count for both together |
| Analytics.SumOfCountsIsCountIn | cogito-craft-nexus/src/components/dashboard/Analytics.tsx:25-47 | one bucket per distinct value: together the buckets count the tickets that hold any of the values |
| Analytics.CountInAll | cogito-craft-nexus/src/components/dashboard/Analytics.tsx:25-47 | when every ticket holds one of the values, every ticket is counted |
| Analytics.StatusData | cogito-craft-nexus/src/components/dashboard/Analytics.tsx:25-30 | the status slices are the non-empty buckets among Open, In Progress, Resolved and Closed, in that fixed order |
| Analytics.StatusDataSum | cogito-craft-nexus/src/components/dashboard/Analytics.tsx:25-30 | the status slices add up to the tickets with a recognised status, which is every ticket when all statuses are recognised |
| Analytics.OpenSliceMatchesOpenCount | cogito-craft-nexus/src/components/dashboard/Analytics.tsx:20-26 | the Open slice is present exactly when some ticket is open; it is then the first slice and equals the Open Tickets count |
| Analytics.FirstSliceIsFirstBucket | cogito-craft-nexus/src/components/dashboard/Analytics.tsx:25-30 | dropping empty buckets leaves the first bucket first when it is non-empty, and drops it otherwise |
| Analytics.PriorityData | cogito-craft-nexus/src/components/dashboard/Analytics.tsx:33-38 | exactly four bars, named Low, Medium, High and Urgent in that order, each counting the tickets of the matching priority value, zeros kept |
| Analytics.PriorityDataSum | cogito-craft-nexus/src/components/dashboard/Analytics.tsx:33-38 | the four priority bars, zeros included, add up to the tickets with a recognised priority |
| Analytics.PriorityExample | cogito-craft-nexus/src/components/dashboard/Analytics.tsx:33-38 | priorities low, high, high, urgent give the bars Low 1, Medium 0, High 2, Urgent 1 |
| Analytics.CategoryData | cogito-craft-nexus/src/components/dashboard/Analytics.tsx:41-47 | the category slices are the non-empty buckets among the five categories, in fixed order |
| Analytics.CategoryDataSum | cogito-craft-nexus/src/components/dashboard/Analytics.tsx:41-47 | the category slices add up to the tickets with a recognised category |
| Analytics.RecentActivity | cogito-craft-nexus/src/components/dashboard/Analytics.tsx:172 | recent activity is the first `min(5, n)` tickets, in the given order |
| Analytics.CellColor | cogito-craft-nexus/src/components/dashboard/Analytics.tsx:15-120 | every slice gets one of the five palette colours |
| Analytics.SliceColors | cogito-craft-nexus/src/components/dashboard/Analytics.tsx:119-120 | the slice at index `i` gets colour `COLORS[i mod 5]` |
| Analytics.StatusSlicesHaveDistinctColors | cogito-craft-nexus/src/components/dashboard/Analytics.tsx:25-30 | the status pie has at most four slices, so no two of them share a colour |
| TicketDetails.FormatMessage | cogito-craft-nexus/src/components/dashboard/TicketDetails.tsx:119 | a context line is the sender type, then `": "`, then the message body |
| TicketDetails.RecentMessages | cogito-craft-nexus/src/components/dashboard/TicketDetails.tsx:119 | `slice(-3)` gives the last `min(3, n)` messages, in their existing order |
| TicketDetails.RecentMessagesIgnoreOlder | cogito-craft-nexus/src/components/dashboard/TicketDetails.tsx:119 | messages before the last three never reach the context |
| TicketDetails.RecentMessagesTextLines | cogito-craft-nexus/src/components/dashboard/TicketDetails.tsx:119 | the recent-messages text consists of one formatted line per recent message, joined by line feeds, when no field holds a line break |
| TicketDetails.RecentMessagesText | cogito-craft-nexus/src/components/dashboard/TicketDetails.tsx:119 | the recent messages formatted one per line and joined by line feeds; `RecentMessagesTextLines` proves it splits back into those lines |
| TicketDetails.Context | cogito-craft-nexus/src/components/dashboard/TicketDetails.tsx:113-120 | the context template: title, description, category, priority, customer name and company, then the recent-messages text; `AIPromptIgnoresOlderMessages` proves only the last three messages matter |
| TicketDetails.AIPrompt | cogito-craft-nexus/src/components/dashboard/TicketDetails.tsx:123 | the prompt opens with the fixed instruction followed by a blank line |
| TicketDetails.AIPromptIgnoresOlderMessages | cogito-craft-nexus/src/components/dashboard/TicketDetails.tsx:113-123 | the prompt depends on the conversation only through its last three messages |
| TicketDetails.SendDisabled | cogito-craft-nexus/src/components/dashboard/TicketDetails.tsx:313 | the send button is disabled exactly while sending or when the draft is all whitespace |
| TicketDetails.StatusLabel | cogito-craft-nexus/src/components/dashboard/TicketDetails.tsx:153 | the status label turns the first underscore into a space and leaves every other character, later underscores included |
| TicketDetails.StatusLabelsOfSelector | cogito-craft-nexus/src/components/dashboard/TicketDetails.tsx:153-213 | the four selectable statuses read "open", "in progress", "resolved" and "closed" |
| TicketDetails.StatusLabelReplacesFirstOnly | cogito-craft-nexus/src/components/dashboard/TicketDetails.tsx:153 | `a_b_c` is labelled `a b_c`: only the first underscore changes |
| TicketDetails.TicketDetailsView.constructor | cogito-craft-nexus/src/components/dashboard/TicketDetails.tsx:26-30 | the pane starts with no messages, an empty draft, no suggestion and neither busy flag set |
| TicketDetails.TicketDetailsView.SelectTicket | cogito-craft-nexus/src/pages/Dashboard.tsx:84 | a new `ticket` prop replaces the ticket and keeps the messages, the draft and the suggestion |
| TicketDetails.TicketDetailsView.FetchMessages | cogito-craft-nexus/src/components/dashboard/TicketDetails.tsx:59-74 | without a ticket nothing changes; a successful fetch replaces the messages (a null result loads as none); a failed fetch keeps them |
| TicketDetails.TicketDetailsView.SetNewMessage | cogito-craft-nexus/src/components/dashboard/TicketDetails.tsx:306-309 | the text area's `onChange` stores the draft as typed |
| TicketDetails.TicketDetailsView.SendMessage | cogito-craft-nexus/src/components/dashboard/TicketDetails.tsx:76-106 | no insert is issued without a ticket or with a blank draft; otherwise the untrimmed draft is inserted as an "agent" / "Support Agent" message; the draft is cleared only on success; `loading` is false on exit |
| TicketDetails.TicketDetailsView.GetAISuggestion | cogito-craft-nexus/src/components/dashboard/TicketDetails.tsx:108-138 | without a ticket nothing is sent; otherwise the prompt is built from the ticket and the current messages; a reply replaces the suggestion and a failure keeps it; `loadingAI` is false on exit |
| TicketDetails.TicketDetailsView.UseSuggestion | cogito-craft-nexus/src/components/dashboard/TicketDetails.tsx:271-284 | the suggestion becomes the draft, then the suggestion is cleared; nothing else changes; the send button is enabled exactly when the suggestion was not blank |
| TicketDetails.TicketDetailsView.UpdateTicketStatus | cogito-craft-nexus/src/components/dashboard/TicketDetails.tsx:140-163 | without a ticket nothing is sent; the parent is notified only when the update succeeds, and the confirmation then names the status label |

## Left out

- The database client. Queries, inserts, updates and the AI function
  invocation are modelled only as outcomes passed to the handlers. The
  ordering the server applies (`order('created_at')`) is not modelled.
- Realtime subscriptions, their refetch callbacks and channel teardown
  (`TicketDetails.tsx:33-57`). These are concurrency handled by an external
  service.
- Interleavings of asynchronous handlers. Each handler is one atomic method,
  so the window in which `loading` or `loadingAI` is true while a call is
  awaited cannot be observed. The class invariant says both flags are false
  between handlers. The double-click guard the busy flags give the buttons is
  not modelled.
- `TicketDetails.TicketDetailsView.SelectTicket`: the effect that refetches
  the messages when the `ticket` prop changes (`TicketDetails.tsx:33-35`) is
  not part of the method. It is the separate `FetchMessages` call.
- `KnowledgeBase.KnowledgeBaseView.CreateArticle`: the refetch started after a
  successful insert is not part of the method. It is the separate
  `FetchArticles` call.
- Toast notifications, `console.error`, date formatting and all rendering and
  styling.
- `Dashboard.tsx`, `Sidebar.tsx`, `TicketList.tsx` and `Index.tsx` are not
  part of this model: they only fetch and render.
- The constant `avgResolutionTime` (`Analytics.tsx:22`), which is a fixed
  string, not a computation.
- `Strings.Lower`: only ASCII letters are lower-cased. Full Unicode case
  mapping is not modelled.
- Null values. `company` and the other customer fields are non-null strings
  in the model, so a null company, which the template would print as `null`,
  is not covered.
- `data.response` of the AI call is taken to be a string. A response without
  that field is not modelled.
