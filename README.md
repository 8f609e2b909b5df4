# Chat synchronisation store — a Dafny model

This project models the client-side state engine of a social app's chat. Its core is the
`useChat` store. The store keeps three things:

- an ordered chat list;
- at most one open transcript, which is a chat plus its messages in insertion order;
- a read-marker map from chat id to the id of the last message read.

It also keeps loading flags and pagination state. Around the store, the model covers:

- the components that route realtime events into the store (`chat-body.tsx`, `chat-list.tsx`);
- compose validation (`chat-footer.tsx`);
- the mark-read effect and the preview text (`chat-list-item.tsx`);
- the chat display helpers (`helper.ts`);
- two smaller stores built the same way: posts (`use-post.ts`) and profiles (`use-profile.ts`).

How the model is built:

- **Stores are classes.** `ChatStore.Store`, `PostStore.PostStore` and `ProfileStore.ProfileStore`
  hold the store's fields. Each action is a method. `State()` snapshots every field, so a
  method's `ensures` states the whole new state.
- **The chat store's local actions are a reducer.** `ChatReducer.Reduce(state, action)` specifies
  them. The list and transcript laws are proved about it: move-to-front upsert, patch-and-promote,
  chat-scoped id-keyed transcript edits, idempotence of every action, and uniqueness of chat and
  message ids.
- **Requests are split into two phases.** A `Begin…` method applies the effect that happens before
  the request. A `Complete…` method applies the response; in the post and profile stores a response
  of `None` stands for a failed request. The split makes interleavings expressible. Two are shown:
  a chat arriving during `fetchMoreChats` is dropped, and a `clearProfile` during `fetchMorePosts`
  is undone.
- **Temporary ids and the current user are parameters.** A send takes a fresh temporary id as a
  parameter instead of generating one. The current user is a parameter too.
- **Components are routing functions and small methods.** Socket events are datatypes. A routing
  function maps each event to a store action. Handler registration is a multiset of listeners on
  `Socket.Socket`.

Modules: `Options`, `Text` (JavaScript string helpers), `Keyed` (lists keyed by string id),
`Entities`, `Paging`, `ChatReducer`, `ChatStore`, `Socket`, `ChatBody`, `ChatList`,
`ChatListItem`, `ChatFooter`, `Helper`, `PostStore`, `ProfileStore`.

Where the code and the design description of the system differ, the model follows the code:

- `sendMessage` without a chat id or a user returns early but leaves `isSendingMsg` set.
- `message:new` in the open chat view is appended under the view's chat id, not the event's.
- A send's success or failure rewrites whatever transcript is open at that moment. With a fresh
  temporary id this is a no-op on any other chat, for the as-written confirmation as for the
  rollback (`ChatReducer.CompletionElsewhereIsNoop`).
- A load-more writes back the list captured before the request, so changes made meanwhile are
  lost.
- A `message:new` echo that arrives before the send's HTTP response is duplicated. See
  "## Findings". `ChatStore.Store.CompleteSendOk` applies the code as written;
  `ChatStore.Store.CompleteSendOkCorrected` applies the corrected confirmation.

## Model

| member | source | states |
|---|---|---|
| ChatReducer.UpsertFront | src/hooks/use-chat.ts:225-240 | addNewChat: the new chat is at index 0, followed by the old list without any entry of that id, in order |
| ChatReducer.UpsertFrontLength | src/hooks/use-chat.ts:225-240 | with unique ids, the list grows by one for a new id and keeps its length for a known one |
| ChatReducer.UpsertFrontKeepsUnique | src/hooks/use-chat.ts:225-240 | addNewChat keeps chat ids unique |
| ChatReducer.UpsertFrontIdempotent | src/hooks/use-chat.ts:225-240 | adding the same chat twice equals adding it once |
| ChatReducer.UpsertFrontAtHead | src/hooks/use-chat.ts:225-240 | re-adding the chat already at the top only replaces it in place |
| ChatReducer.PatchLastMessage | src/hooks/use-chat.ts:242-255 | updateChatLastMessage: an unknown id leaves the list unchanged; otherwise the first chat with the id, with only lastMessage replaced, moves to the front and the others follow in order |
| ChatReducer.PatchLastMessageIdempotent | src/hooks/use-chat.ts:242-255 | patching twice with the same message equals patching once |
| ChatReducer.PatchLastMessageScenario | src/hooks/use-chat.ts:242-255 | [a, b, c] patched at c gives [c with the new message, a, b] |
| ChatReducer.ReplaceActiveChat | src/hooks/use-chat.ts:397-399 | updateChatInList replaces the open transcript's chat exactly when it has the updated chat's id |
| ChatReducer.AppendNew | src/hooks/use-chat.ts:256-286 | addNewMessage appends only to the open transcript of that chat and only when no message has that id; afterwards the id is present |
| ChatReducer.RemoveMessage | src/hooks/use-chat.ts:410-422 | removeMessageFromChat filters the id out of the open transcript of that chat only |
| ChatReducer.ClearMessages | src/hooks/use-chat.ts:424-436 | clearMessagesInChat empties the open transcript of that chat only |
| ChatReducer.UpdateMessage | src/hooks/use-chat.ts:438-452 | updateMessageInChat replaces the entries with the edited message's id in the open transcript of that chat only |
| ChatReducer.UnknownMessageIdIsNoop | src/hooks/use-chat.ts:410-452 | an edit or delete of an id not in the transcript changes nothing |
| ChatReducer.Reduce | src/hooks/use-chat.ts:225-295 | no local action touches a flag; only markChatAsRead touches the read map, and it touches nothing else |
| ChatReducer.ReduceIdempotent | src/hooks/use-chat.ts:225-295 | every local action (addNewChat, updateChatLastMessage, updateChatInList, removeChatFromList, the four transcript edits, markChatAsRead) applied twice equals applied once |
| ChatReducer.ReducePreservesWellFormed | src/hooks/use-chat.ts:392-452 | every local action keeps chat ids and transcript message ids unique |
| ChatReducer.ChatActionPreservesWellFormed | src/hooks/use-chat.ts:392-408 | the four chat-list actions keep ids unique |
| ChatReducer.TranscriptActionPreservesWellFormed | src/hooks/use-chat.ts:256-295 | the transcript actions and markChatAsRead keep ids unique |
| ChatReducer.PatchKeepsUnique | src/hooks/use-chat.ts:242-255 | updateChatLastMessage keeps chat ids unique |
| ChatReducer.AppendNewKeepsUnique | src/hooks/use-chat.ts:272-284 | the duplicate check keeps message ids unique |
| ChatReducer.Unread | src/hooks/use-chat.ts:297-302 | isMessageUnread is false without a message or user, for the user's own message, and for the stored marker; true otherwise |
| ChatReducer.UnreadClearedByMark | src/hooks/use-chat.ts:288-302 | after markChatAsRead with a message's id, that message is not unread |
| ChatReducer.MarkIsChatScoped | src/hooks/use-chat.ts:288-295 | marking one chat leaves every other chat's unread status as it was |
| ChatReducer.TempMessage | src/hooks/use-chat.ts:165-175 | the local echo carries the temporary id, the chat, the sender, status "sending...", and null for empty content or image |
| ChatReducer.EchoTemp | src/hooks/use-chat.ts:177-185 | the echo is appended only when the open transcript is the target chat |
| ChatReducer.ConfirmTempAsWritten | src/hooks/use-chat.ts:196-206 | as written: every entry with the temporary id becomes the server message, the length is kept and other entries are untouched; no-op without an open transcript |
| ChatReducer.ConfirmTemp | src/hooks/use-chat.ts:196-206 | corrected confirmation: equal to the as-written one unless the server message is already present; no-op without an open transcript |
| ChatReducer.DropTemp | src/hooks/use-chat.ts:210-218 | rollback removes the entries with the temporary id; no-op without an open transcript |
| ChatReducer.EchoThenDrop | src/hooks/use-chat.ts:177-218 | a failed send restores the transcript it started from |
| ChatReducer.EchoThenConfirm | src/hooks/use-chat.ts:177-206 | a successful send with no socket echo in between leaves the transcript plus exactly the server message, under both the as-written and the corrected confirmation |
| ChatReducer.CompletionElsewhereIsNoop | src/hooks/use-chat.ts:196-218 | completing a send while another chat is open changes nothing, given a fresh temporary id: the as-written confirmation, the corrected one and the rollback alike |
| ChatReducer.EchoBeforeResponseDuplicates | src/hooks/use-chat.ts:196-206 | as written, a socket echo of the sent message before the HTTP response leaves two copies |
| ChatReducer.ConfirmCommutesWithEcho | src/hooks/use-chat.ts:196-206 | with the corrected confirmation, echo and response commute and leave one copy |
| ChatReducer.ConfirmTempKeepsUnique | src/hooks/use-chat.ts:196-206 | the corrected confirmation keeps message ids unique |
| ChatStore.Store.constructor | src/hooks/use-chat.ts:55-67 | empty store, hasMoreChats true, all other flags false |
| ChatStore.Store.BeginFetchChats | src/hooks/use-chat.ts:81-86 | fetchChats asks for limit 5 at offset 0 and raises isChatsLoading |
| ChatStore.Store.CompleteFetchChatsOk | src/hooks/use-chat.ts:87-97 | the page replaces the list and hasMoreChats; the loading flag drops |
| ChatStore.Store.CompleteFetchChatsFail | src/hooks/use-chat.ts:91-97 | a failure only drops the loading flag |
| ChatStore.Store.BeginFetchMoreChats | src/hooks/use-chat.ts:100-110 | no-op while loading more or with no more chats; otherwise raises isLoadingMore and asks for limit 20 at offset = the captured list's length |
| ChatStore.Store.CompleteFetchMoreChatsOk | src/hooks/use-chat.ts:111-115 | the list becomes the captured list followed by the page; hasMoreChats comes from the response; isLoadingMore drops |
| ChatStore.Store.CompleteFetchMoreChatsFail | src/hooks/use-chat.ts:116-120 | a failure only drops isLoadingMore |
| ChatStore.ChatArrivingDuringLoadMoreIsLost | src/hooks/use-chat.ts:100-115 | a chat added while a load-more is pending, and not in the page, is gone when the page arrives |
| ChatStore.Store.BeginCreateChat | src/hooks/use-chat.ts:124-125 | createChat raises isCreatingChat |
| ChatStore.Store.CompleteCreateChatOk | src/hooks/use-chat.ts:126-140 | the created chat is added as addNewChat does and returned; the flag drops |
| ChatStore.Store.CompleteCreateChatFail | src/hooks/use-chat.ts:133-140 | null is returned and only the flag drops |
| ChatStore.Store.BeginFetchSingleChat | src/hooks/use-chat.ts:144-145 | fetchSingleChat raises isSingleChatLoading |
| ChatStore.Store.CompleteFetchSingleChatOk | src/hooks/use-chat.ts:146-154 | the fetched transcript becomes the open one; the flag drops |
| ChatStore.Store.CompleteFetchSingleChatFail | src/hooks/use-chat.ts:149-154 | a failure only drops the flag |
| ChatStore.Store.BeginSend | src/hooks/use-chat.ts:157-185 | isSendingMsg is raised; without a chat id or user nothing else happens; otherwise the echo goes to the open transcript of the target chat |
| ChatStore.Store.CompleteSendOk | src/hooks/use-chat.ts:187-221 | as written: every transcript entry with the temporary id becomes the server's message, even when a socket echo already added it; isSendingMsg drops |
| ChatStore.Store.CompleteSendOkCorrected | src/hooks/use-chat.ts:187-221 | corrected: the echo gives way to the server's message unless that message is already present, in which case the echo is only dropped; isSendingMsg drops |
| ChatStore.Store.CompleteSendFail | src/hooks/use-chat.ts:207-221 | the echo is rolled back and isSendingMsg drops |
| ChatStore.Store.AddNewChat | src/hooks/use-chat.ts:225-240 | the store changes as the reducer's addNewChat |
| ChatStore.Store.UpdateChatLastMessage | src/hooks/use-chat.ts:242-255 | the store changes as the reducer's updateChatLastMessage |
| ChatStore.Store.AddNewMessage | src/hooks/use-chat.ts:256-286 | the store changes as the reducer's addNewMessage |
| ChatStore.Store.MarkChatAsRead | src/hooks/use-chat.ts:288-295 | only the chat's key of the read map is set, overwriting |
| ChatStore.Store.IsMessageUnread | src/hooks/use-chat.ts:297-302 | an unread message exists, was sent by someone else and is not the stored marker |
| ChatStore.Store.CompleteGroupEdit | src/hooks/use-chat.ts:304-346 | the four group edits write the returned chat as updateChatInList does; a failure changes nothing |
| ChatStore.Store.CompleteDeleteChat | src/hooks/use-chat.ts:348-357 | the chat is removed only after the request succeeded |
| ChatStore.Store.CompleteDeleteMessage | src/hooks/use-chat.ts:359-368 | the message is removed only after the request succeeded |
| ChatStore.Store.CompleteClearChatMessages | src/hooks/use-chat.ts:370-379 | the transcript is cleared only after the request succeeded |
| ChatStore.Store.CompleteEditMessage | src/hooks/use-chat.ts:380-389 | the edited message is applied to the chat it names; a failure changes nothing |
| ChatStore.Store.UpdateChatInList | src/hooks/use-chat.ts:392-401 | every entry with the id is replaced in place, as is the open chat when it has that id |
| ChatStore.Store.RemoveChatFromList | src/hooks/use-chat.ts:403-408 | the id is filtered out; the open transcript is dropped exactly when it is that chat |
| ChatStore.Store.RemoveMessageFromChat | src/hooks/use-chat.ts:410-422 | the store changes as the reducer's removeMessageFromChat |
| ChatStore.Store.ClearMessagesInChat | src/hooks/use-chat.ts:424-436 | the store changes as the reducer's clearMessagesInChat |
| ChatStore.Store.UpdateMessageInChat | src/hooks/use-chat.ts:438-452 | the store changes as the reducer's updateMessageInChat |
| Paging.StartMore | src/hooks/use-chat.ts:101-108 | a load-more captures the list and asks for offset = its length |
| Paging.Extend | src/hooks/use-chat.ts:111-113 | the written list splits into exactly the captured list and the page |
| Keyed.IndexOf | src/hooks/use-chat.ts:227 | findIndex: -1 exactly when no entry has the key; otherwise the first entry that has it |
| Keyed.Find | src/hooks/use-chat.ts:244 | find: absent exactly when no entry has the key; otherwise the first entry that has it |
| Keyed.Without | src/hooks/use-chat.ts:405 | filter by id: keeps exactly the entries with another key and leaves none with the key |
| Keyed.ReplaceAll | src/hooks/use-chat.ts:394-396 | map by id: entries with the key become the new value, the others stay |
| ChatBody.Route | src/components/chat/chat-body.tsx:26-86 | message:new always appends under the view's chat id; deleted, edited and cleared act only when the event names the view's chat |
| ChatBody.Deliver | src/components/chat/chat-body.tsx:29-81 | the handler performs the routed store action, or nothing |
| ChatBody.DuplicateEventIsHarmless | src/components/chat/chat-body.tsx:26-86 | each message event delivered twice equals delivered once |
| ChatBody.EventTouchesOnlyTranscript | src/components/chat/chat-body.tsx:26-86 | message events change only the open transcript and keep ids unique |
| ChatBody.Subscribe | src/components/chat/chat-body.tsx:26-86 | handlers are registered only with a socket and a chat id, one per event |
| ChatBody.Unsubscribe | src/components/chat/chat-body.tsx:31-85 | cleanup removes exactly the four registered handlers |
| ChatBody.ShouldShowTimestamp | src/components/chat/chat-body.tsx:92-102 | true for the first message; otherwise true iff at least 11 minutes passed, i.e. the truncated minute difference exceeds 10 |
| ChatList.SomeOtherNameMatches | src/components/chat/chat-list.tsx:41-45 | some participant other than the current user has a lower-cased name containing the query |
| ChatList.FilteredChats | src/components/chat/chat-list.tsx:37-46 | a chat is kept iff its group name, or another participant's name, contains the query ignoring case |
| ChatList.FilteredSingle | src/components/chat/chat-list.tsx:37-46 | a one-chat list keeps its chat iff the chat matches |
| ChatList.FilteredAppend | src/components/chat/chat-list.tsx:37-46 | filtering distributes over concatenation, so matching chats keep their list order and multiplicity |
| ChatList.EmptyQueryMatches | src/components/chat/chat-list.tsx:37-46 | with no query, exactly the chats with a group name or another participant are shown |
| ChatList.OnSentinelVisible | src/components/chat/chat-list.tsx:53-67 | fetchMoreChats runs, and always issues its request, iff the query is empty, the sentinel is visible, more chats exist and nothing is loading |
| ChatList.Route | src/components/chat/chat-list.tsx:89-135 | chat:new to addNewChat, chat:update to updateChatLastMessage, chat:group-updated to updateChatInList, chat:deleted to removeChatFromList, with their payloads |
| ChatList.ListEventIsIdempotent | src/components/chat/chat-list.tsx:86-139 | every chat event delivered twice equals delivered once and keeps ids unique |
| ChatList.Deliver | src/components/chat/chat-list.tsx:89-135 | the handler performs the routed store action |
| ChatList.Subscribe | src/components/chat/chat-list.tsx:86-139 | one handler per chat event is registered when a socket exists |
| ChatList.Unsubscribe | src/components/chat/chat-list.tsx:94-138 | cleanup removes one handler per chat event |
| ChatList.Resubscribe | src/components/chat/chat-list.tsx:86-139 | cleanup followed by subscribing again leaves the handler counts as they were: one per event |
| ChatListItem.ReadAfterVisit | src/components/chat/chat-list-item.tsx:31-35 | the chat is marked read with its last message's id exactly when the path contains the chat id and a last message exists |
| ChatListItem.MarkReadEffect | src/components/chat/chat-list-item.tsx:31-35 | the effect changes only the read map, as ReadAfterVisit says |
| ChatListItem.OpenChatShowsNoUnread | src/components/chat/chat-list-item.tsx:31-63 | while /chat/<id> is open, the row shows no unread dot |
| ChatListItem.ShowsUnread | src/components/chat/chat-list-item.tsx:63-101 | the dot and bold style appear iff a last message exists, a user is signed in, someone else sent it, and it is not the stored marker |
| ChatListItem.LastMessageText | src/components/chat/chat-list-item.tsx:37-61 | the preview text for each case: no message (group creator, added member, direct chat), an image, and text |
| ChatListItem.ImagePreviewIgnoresContent | src/components/chat/chat-list-item.tsx:46-50 | an image preview takes priority over the text |
| ChatListItem.OwnTextPreviewIgnoresChatKind | src/components/chat/chat-list-item.tsx:52-58 | the user's own text previews as "You: content" in group and direct chats alike |
| ChatFooter.HasContentIffNotBlank | src/components/chat/chat-footer.tsx:47 | hasContent iff the text is not all whitespace or an image is set |
| ChatFooter.Decide | src/components/chat/chat-footer.tsx:89-103 | no chat is rejected first, then empty content; otherwise the untrimmed text, the image or nothing, and the reply are sent |
| ChatFooter.SubmittedPassesSendGuard | src/components/chat/chat-footer.tsx:98-103 | a submitted message passes sendMessage's chat-id and user guard for a signed-in user |
| ChatFooter.HeartIsContent | src/components/chat/chat-footer.tsx:79-87 | the heart skips the emptiness check but is never blank |
| ChatFooter.Composer.constructor | src/components/chat/chat-footer.tsx:36-44 | empty text, no image |
| ChatFooter.Composer.ShowsSendButton | src/components/chat/chat-footer.tsx:181-194 | the Send button shows iff the text is not blank or an image is set; the heart shows otherwise |
| ChatFooter.Composer.SelectEmoji | src/components/chat/chat-footer.tsx:71-77 | the emoji is appended to the end of the text; nothing else changes |
| ChatFooter.Composer.ChooseFile | src/components/chat/chat-footer.tsx:49-62 | only a file with an image MIME type replaces the attachment |
| ChatFooter.Composer.RemoveImage | src/components/chat/chat-footer.tsx:64-69 | the image is removed; the text is kept |
| ChatFooter.Composer.ReplyTo | src/components/chat/chat-footer.tsx:17-28 | replying sets the message being replied to |
| ChatFooter.Composer.Submit | src/components/chat/chat-footer.tsx:89-107 | a rejected submit changes nothing; a sent one clears the reply, the image and the text |
| ChatFooter.Composer.HeartLike | src/components/chat/chat-footer.tsx:79-87 | with a chat, a heart with the current reply is sent; without one nothing is sent |
| Helper.IsUserOnline | src/lib/helper.ts:6-10 | false for a missing or empty id, otherwise membership in the online list |
| Helper.FirstOtherIndex | src/lib/helper.ts:26-28 | the first participant whose id is not the current user's, or none |
| Helper.GetOtherUserAndGroup | src/lib/helper.ts:12-39 | group: name or "Unnamed Group", image or "", "<n> members"; direct: the first other participant's name or "Unknown User", avatar or "", "Online"/"Offline" following isOnline |
| Helper.GroupSubheadingCountsMembers | src/lib/helper.ts:22 | the participant count can be read back from a group's subheading |
| Helper.SelfOnlyDirectChat | src/lib/helper.ts:26-38 | with no other participant the display falls back to "Unknown User", offline |
| Helper.FormatChatTime | src/lib/helper.ts:41-42 | an empty date renders as "" |
| Text.Contains | src/components/chat/chat-list.tsx:40-44 | includes: true iff the needle occurs at some index |
| Text.ContainsSuffix | src/components/chat/chat-list-item.tsx:32 | a path contains every string it ends with |
| Text.TrimEmptyIffBlank | src/components/chat/chat-footer.tsx:94 | trim gives "" iff the string is all whitespace |
| Text.NatToStringRoundTrip | src/lib/helper.ts:22 | the decimal rendering of a count reads back as that count |
| Socket.Socket.On | src/components/chat/chat-list.tsx:93 | registering adds one handler for the event |
| Socket.Socket.Off | src/components/chat/chat-list.tsx:95 | unregistering removes one handler for the event |
| PostStore.UpdatedLikes | src/hooks/use-post.ts:228-230 | a like appends the user without deduplication; an unlike removes every occurrence and keeps all other likes |
| PostStore.ApplyLike | src/hooks/use-post.ts:224-236 | updatePostLike: matching posts get the new likes and a count equal to their length; other posts are unchanged |
| PostStore.UnlikeAfterLike | src/hooks/use-post.ts:224-236 | an unlike undoes an earlier like by the same user |
| PostStore.UnlikeIdempotent | src/hooks/use-post.ts:224-236 | unliking twice equals unliking once |
| PostStore.CopyLikes | src/hooks/use-post.ts:118-122 | the server's likes and count go onto the matching posts, nothing else changes |
| PostStore.BumpComments | src/hooks/use-post.ts:240-244 | the matching posts count exactly one more comment, nothing else changes |
| PostStore.WithComments | src/hooks/use-post.ts:193-215 | the open post takes the comments; otherwise the first list post with that id opens with them; otherwise nothing changes |
| PostStore.PostStore.constructor | src/hooks/use-post.ts:33-35 | no posts and no open post |
| PostStore.PostStore.FetchPosts | src/hooks/use-post.ts:43-67 | fetchFeed and fetchUserPosts replace the list on success only |
| PostStore.PostStore.CreatePost | src/hooks/use-post.ts:69-84 | on success the new post goes first and is returned; on failure nothing changes and null is returned |
| PostStore.PostStore.FetchPostById | src/hooks/use-post.ts:86-97 | the fetched post opens with no comments |
| PostStore.PostStore.DeletePost | src/hooks/use-post.ts:99-110 | the posts with the id leave the list only after success |
| PostStore.PostStore.CompleteLikeRequest | src/hooks/use-post.ts:112-164 | likePost and unlikePost copy the server's likes onto the list, and onto the open post only when it is that post |
| PostStore.PostStore.UpdatePostLike | src/hooks/use-post.ts:224-236 | only the list changes, as ApplyLike says |
| PostStore.PostStore.AddNewComment | src/hooks/use-post.ts:238-256 | the list count rises by one; the open post, when it is that post, also counts one more and gets the comment first |
| PostStore.PostStore.CreateComment | src/hooks/use-post.ts:166-185 | a failure changes nothing; on success the list count of that post rises by one, and the open post, when it is that post, counts one more and gets the comment first; any other open post is untouched |
| PostStore.PostStore.FetchComments | src/hooks/use-post.ts:187-222 | the fetched comments go through the reducer; a failure changes nothing |
| ProfileStore.ProfileStore.constructor | src/hooks/use-profile.ts:23-30 | no profile and no posts; hasMorePosts true; no flag raised |
| ProfileStore.ProfileStore.BeginFetchUserProfile | src/hooks/use-profile.ts:32-33 | raises isLoadingProfile |
| ProfileStore.ProfileStore.CompleteFetchUserProfile | src/hooks/use-profile.ts:34-42 | the response replaces the profile; the flag drops either way |
| ProfileStore.ProfileStore.BeginFetchUserPosts | src/hooks/use-profile.ts:45-50 | asks for limit 12 at offset 0 |
| ProfileStore.ProfileStore.CompleteFetchUserPosts | src/hooks/use-profile.ts:51-60 | the first page replaces the posts and hasMorePosts; the flag drops either way |
| ProfileStore.ProfileStore.BeginFetchMorePosts | src/hooks/use-profile.ts:63-72 | no-op while loading more or with no more posts; otherwise asks for limit 12 at offset = the captured grid's length |
| ProfileStore.ProfileStore.CompleteFetchMorePostsOk | src/hooks/use-profile.ts:74-78 | the captured grid followed by the page; hasMorePosts from the response; the flag drops |
| ProfileStore.ProfileStore.CompleteFetchMorePostsFail | src/hooks/use-profile.ts:79-83 | a failure only drops isLoadingMore |
| ProfileStore.ProfileStore.BeginUpdateProfile | src/hooks/use-profile.ts:86-87 | raises isUpdating |
| ProfileStore.ProfileStore.CompleteUpdateProfile | src/hooks/use-profile.ts:88-105 | on success only the user of an existing profile is replaced and a missing profile stays missing; a failure is rethrown; isUpdating drops either way |
| ProfileStore.ProfileStore.ClearProfile | src/hooks/use-profile.ts:108-114 | no profile, no posts, hasMorePosts true |
| ProfileStore.ClearDuringLoadMore | src/hooks/use-profile.ts:63-114 | a clearProfile during a load-more is undone: the previous posts come back with the page |

## Left out

- HTTP requests and response parsing: responses are method parameters, and a failure is a separate Complete method or a `None` response.
- Toasts and console logging: they change no state.
- The socket transport, reconnection and React effect scheduling: events are direct calls to the routing functions, and handler registration is a listener multiset.
- Chat and message type declarations: `chat.type.ts` is not part of this model. The shapes of `Chat`, `Message` and `User` follow their use in the store and components.
- `fetchAllUsers` and the `users` list: a plain fetch into a field that no other modelled operation reads.
- UUID generation: a send takes a fresh temporary id as a parameter.
- The clock: timestamps are parameters. The creation instants used by shouldShowTimestamp are integer milliseconds.
- Date parsing and formatting via date-fns and `new Date`: `formatTimestamp`, and `formatChatTime` beyond its empty-input branch, whose other output is a parameter.
- Text.Lower: lower-cases ASCII letters only; JavaScript's full Unicode case mapping is not modelled.
- Text.IsWhitespace: covers the ASCII whitespace characters plus U+00A0, U+FEFF, U+2028 and U+2029, not every Unicode space separator that JavaScript's `trim` removes.
- FileReader and base64 loading of images: the chosen file arrives as a MIME type and a data URL.
- The form library: the composer's text field is a plain string.
- The post store's loading flags (isFeedLoading, isCreatingPost, isPostLoading, isCommentsLoading, isSendingComment): each post action is one method, so the flags, raised before and dropped after, have no observable effect.
- The profile fetches' `userId` argument: it only selects the URL.
- ChatStore.Store.IsMessageUnread: states only the direction "unread implies exists, sent by another user and not the marker". The full characterisation is on `ChatReducer.Unread`, and the store function returns it.
- ChatListItem.Interpolate: an absent field is taken to be `null`, never `undefined`, so an absent message content renders as "null"; a JavaScript `undefined` would render as "undefined".
- The floating-heart animation, the navigation bars, the dialogs and all JSX rendering and class names.

## Findings

| source | as written | input that shows it | evidently intended | confidence | as-written member | corrected member |
|---|---|---|---|---|---|---|
| src/hooks/use-chat.ts:196-206 | on send success every entry with the temporary id is replaced by the server message, even when the `message:new` echo of that message already appended it | open chat with transcript T, temporary id t, server message m with id not t and not in T; `message:new` for m arrives before the HTTP response | a single copy of m whichever arrives first, since message ids in a transcript are unique | not executed; medium, because it depends on the server sending `message:new` to the sender | ChatReducer.EchoBeforeResponseDuplicates | ChatReducer.ConfirmCommutesWithEcho |
