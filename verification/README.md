# Six engines of PuTTY, modelled and proved

This project models the parts of PuTTY's C code whose correctness is hardest to see by reading, and
proves properties of them for every input, every run or every reachable state. Code that changes
state step by step is modelled as classes and loops and proved equal to specification functions; the
properties are then proved of those functions.

* **The agent** (`pageant.c`). `key_store.dfy` holds the two sorted trees of public and private keys and
  `key_ring.dfy` what they amount to without trees.
  `agent.dfy` is the machine of sign requests: coroutines with an explicit resume point, the one
  passphrase dialog and its lock, the wait lists, the callback queue, and an explicit `Crash` outcome
  for every assertion and for every use of a missing key. `agent_keeps.dfy` proves that every event
  keeps its invariant, `agent_runs.dfy` what holds over whole runs, `agent_answers.dfy` what became of
  each request that was made, `agent_wait.dfy` how long one
  request can wait while others arrive, `agent_discipline.dfy` exactly what the callers must respect,
  and `agent_impl.dfy` proves the imperative routines equal to the machine's steps.
  `agent_conn.dfy` is the byte-at-a-time framing coroutine and its reply queue (section 4 of
  draft-miller-ssh-agent-04).
* **Callbacks** (`callback.c`). `callbacks.dfy` is the linked list and the flag of idempotent callbacks.
* **Private-key files** (`import.c`). `text.dfy`, `base64.dfy` (section 4 of RFC 4648) and
  `key_text.dfy` are the text layer that the three loaders share; `marshal.dfy`, `ber.dfy` (sections
  8.1.2 and 8.1.3 of ITU-T X.690) and `mpints.dfy` (section 5 of RFC 4251) are the encodings;
  `openssh_pem.dfy`, `openssh_new.dfy` and `sshcom.dfy` are the three writer and reader pairs, and
  `standards.dfy` holds the formats against worked examples of the standards they follow.
* **Copying** (`pscp.c`). `duplex.dfy` is a theory of two processes joined by byte streams, `scp_wire.dfy`
  the text of SCP control records, `scp.dfy` the sending and the receiving half, `scp_theorem.dfy`
  sender against receiver, `scp_prefix.dfy` the receiver as a process and the schedules of a copy,
  `scp_target.dfy` what a level of the receiver can change at most, and `scp_records.dfy` which records
  it takes.
  `sftp_walk.dfy` is the SFTP download walk with its explicit stack.
* **Settings panels** (`dialog.c`, `dialog.dfy`), **line discipline** (`ldisc.c`, `ldisc.dfy`) and
  **packet dump** (`logging.c`, `packet_dump.dfy`).

Run `dafny verify dfyconfig.toml` in this directory to check everything.

## What the proofs assume

* Sockets, dialogs, the terminal, the back end and what the disk refuses are events or parameters. What a
  key algorithm or a dialog answers is a parameter of the step that asks.
* Ciphers, MD5 and bcrypt are arbitrary functions; decryption undoes encryption on whole blocks and
  keeps the length. A key's inline OpenSSH encoding is any encoding whose decoder takes exactly what
  the encoder wrote.
* `tree234` is a sorted set with the shown comparators, `bufchain` and `strbuf` are byte sequences.
* The agent's safety is proved for disciplined events (`Agent.Disciplined`): an answer to a prompt is
  for a prompt that is open, and if it wakes requests then none of them is already in the callback
  queue; a change of the key store takes no key from an open prompt, none from a live request unless
  that request is on the key's own list (deleting the key then answers it, `DeletionAnswersExactly`),
  and no clear form from a woken request whose key stays. This is exactly what keeps the invariant
  (`DisciplineIsExact`), and runs that break it and fail an assertion or use a missing key are given
  (`UndisciplinedRefusalCrashes`, `UndisciplinedReencryptCrashes`, `UndisciplinedRemovalCrashes`).

## What the proofs found

* `pageant.c:763-779`: waking a wait list does not look whether a request was woken before. Answering
  a prompt before the queue is drained can queue a request twice, and does so iff one of those it
  wakes was queued already. The second run is harmless if the first one answers the request, which
  drops its other callback, or has to wait for the dialog again; if the first one opens the request's
  own prompt, the second uses a missing key (`DoubledCallbackCrashes`).
* `pageant.c:889-919, 477-501`: re-encrypting the key of a woken request, or removing a key while its
  prompt is open, is not prevented; each is reached by a run and ends in a missing key. Removing a key
  whose prompt has been answered does no harm to the requests on its list (`WokenKeyCanBeRemoved`):
  they are answered with a failure (`pageant.c:225`).
* `pageant.c:801-803, 810-816, 823-827`: the early returns do not wake the requests that wait for the
  dialog. A step leaves somebody waiting with no dialog open iff it is one of these three and somebody
  who waits has not been woken; a run that ends so is given.
* `import.c:390, 1148, 1788` with `utils/marshal.c`: reading a line at the end of the data yields an
  empty line and sets no error, so the loaders read empty lines for ever, and do so iff no line ends
  the file and none is refused; "unexpected end of file" cannot be reported. In the two OpenSSH
  formats every line counts. In the ssh.com format a header line that ends with a backslash takes the
  next line with it, so that even a file with its last line in place can be read for ever.
* `pscp.c:1962-1967` with `pscp.c:1394-1450`: after a write error the zero byte that ends the file's data is
  still to come and is taken for a control record, so the whole copy ends, iff there was no room for all
  of the file. From a peer that sends no such byte, every later file of the same level is consumed,
  created empty and reported as a write error too, since `wrerror` is never cleared (`WriteErrorLasts`).
* `pscp.c:1404-1418`: the text of an error record stays in the buffer and is read in front of the next
  record's. A file announced behind an error is read as it was sent iff the message is blank but for
  zeros at its end (`SpoiledExactly`); behind any message that begins with a word the copy ends.
* `ldisc.c:386`: in a pass in which a password prompt took bytes and the rest is sent in bulk, the bytes
  the prompt took are not consumed, and as many at the end of the stretch are delivered twice. A pass
  delivers each byte once iff the two do not meet in it.
* `ldisc.c:270-305`: an empty special string (`ldisc_send` with a negative length and an empty string,
  which its interface admits; no caller in the tree is shown to pass one) leaves a chunk of size zero
  iff the input queued last is not special too. Once that chunk is at the head no pass gets past it;
  only more special input typed before any other fills it.
* `callback.c:44-70`: deleting an idempotent callback leaves its `queued` flag set, and no later history
  queues or runs it again. After any history flags and queue agree iff no deletion took an idempotent
  callback that was queued; `delete_callbacks_for_context` breaks the agreement iff one of the
  context's own was.

## Model

| member | source | states |
|---|---|---|
| KeyStore.PubCmpZero | pageant.c:121-156 | two public sort keys compare equal iff they are the same key |
| KeyStore.PubCmpTrans | pageant.c:121-156 | the comparator of the public tree is transitive, strictly where either step is strict |
| KeyStore.FindFinds | pageant.c:267-323 | in an ordered tree a key is found iff it is there, and the place found is the one place that has it |
| KeyStore.AddKeyKeepsValid | pageant.c:351-407 | adding keeps both trees in step, changes no public key already there, and afterwards a private form is held iff it was held before or came with the key; a form held before is not replaced |
| KeyStore.RemovePosKeepsValid | pageant.c:477-508 | deleting a public key keeps the trees in step, and its private entry survives iff another public key shares it |
| KeyStore.NeighbourTest | pageant.c:481-494 | the one search the code makes after a deletion finds a sharer of the private half iff there is any |
| KeyStore.RemoveVersionKeepsValid | pageant.c:516-525 | dropping all keys of one SSH version keeps the trees in step |
| KeyStore.NotOfVersionIs | pageant.c:325-340 | the keys of one version are exactly the slice between the two positions the code searches for |
| KeyStore.CountIsExact | pageant.c:325-340 | the announced count is the number of public keys of that version |
| KeyStore.RefusedAreInClear | pageant.c:1516-1552 | after re-encrypting everything, the public keys counted as failures are exactly those whose private half is still in clear |
| KeyStore.AllRefusedChangesNothing | pageant.c:1516-1552 | when every key is refused, re-encrypting everything has changed nothing |
| KeyStore.EveryHistoryKeepsValid | pageant.c:351-525 | after every history of additions, deletions and re-encryptions the private tree holds exactly the private halves of the public tree, which is ordered, and every private entry has a usable form |
| KeyRing.TreesDoExactly | pageant.c:351-525 | each operation on the two trees does to the set of public keys and to the forms held what it does without trees: a form already held stays, a private half lives as long as a public key has it, locking takes the clear form of what has a file |
| KeyRing.EveryHistoryDoesExactly | pageant.c:351-525 | and so over every history |
| KeyRing.ListTells | pageant.c:549-567 | the two flags of a listed key say whether it can be used without a passphrase and whether it can be locked, and one that cannot be used can be unlocked |
| KeyStore.Trees.AddKeyCommon | pageant.c:351-407 | the imperative addition is the specified one, and reports true iff the public key is new, also when it merges a form |
| KeyStore.Trees.RemovePubkeyCleanup | pageant.c:477-501 | the private entry goes iff no public key shares it |
| KeyStore.Trees.DelPubkeyPos | pageant.c:503-508 | deletion by position is the specified deletion |
| KeyStore.Trees.RemoveAllKeys | pageant.c:516-525 | the loop from the last key of a version back to its first leaves the other version's keys and entries as they were |
| KeyStore.Trees.ListKeys | pageant.c:527-570 | the announced count is the number of entries, which are those of the version in order, with their forms |
| KeyStore.Trees.ReencryptKey | pageant.c:889-919 | a key is re-encrypted iff it is an SSH-2 key that has an encrypted file; otherwise nothing changes |
| KeyStore.Trees.ReencryptAllKeys | pageant.c:1516-1552 | failure is replied only when nothing changed, otherwise the number of public keys still in clear |
| AgentKeeps.FailRequestsKeeps | pageant.c:747-761 | failing a key's requests answers each of them once and keeps every other part of the invariant |
| AgentKeeps.GotPassphraseKeeps | pageant.c:781-839 | a passphrase, right, wrong or for an undecryptable file, keeps the invariant and fails no assertion |
| AgentKeeps.GotRefusalKeeps | pageant.c:841-852 | a refusal keeps the invariant and fails no assertion |
| AgentKeeps.RunHeadKeeps | pageant.c:674-743 | resuming a request wherever it stopped keeps the invariant, and a signature finds its key |
| AgentKeeps.StepKeeps | pageant.c:576-852 | every disciplined event keeps the invariant: lock held iff exactly one prompt is open, each request on the list its resume point says and no other, queued at most once, answered at most once |
| AgentRuns.EveryRunIsSafe | pageant.c:576-852 | over every disciplined run no assertion fails and the invariant holds at the end |
| AgentRuns.LockIsExclusive | pageant.c:614-699 | the dialog lock is held iff one prompt is open, there is never a second, and no request is on two wait lists |
| AgentRuns.SignaturesAreGenuine | pageant.c:702-739 | a signature is only made for the request at the head of the queue, with the clear form of its own key, over the data and flags that are queued with it (that these are the client's is EveryRequestAccounted) |
| AgentRuns.RepliesGrow | pageant.c:702-761 | a step never takes back an answer already given |
| AgentRuns.AnswersStand | pageant.c:702-761 | over every disciplined run the answers given stand, and no request is answered twice |
| AgentRuns.NoStarveExactly | pageant.c:772-852 | from a state where nobody is forgotten, a step leaves a request waiting for the dialog unwoken and no dialog open iff it is one of the three early returns and somebody who waits has not been woken |
| AgentRuns.RunNoStarve | pageant.c:674-852 | a disciplined run none of whose steps abandons somebody ends with nobody forgotten |
| AgentRuns.PendingNeedsDialog | pageant.c:674-699 | with the queue drained a pending request means an open dialog, and one waiting for its key means that key's dialog |
| AgentRuns.QuiescentMeansAnswered | pageant.c:674-852 | where nobody is forgotten, a drained queue and no open dialog mean that every request ever made has been answered or left with its client |
| AgentRuns.AnsweredFromTheStart | pageant.c:674-852 | so after every disciplined run of the empty agent that abandons nobody |
| AgentAnswers.EveryRequestAccounted | pageant.c:674-1130 | over every disciplined run of the empty agent, each request is live exactly as its client sent it, or its client left after making it, or it is answered; a signature is over the data and flags the client sent, with a form of the key it named that was given to the agent for that key; other answers are the one asked for, or a failure, and a request for an unknown key gets the failure byte |
| AgentAnswers.EveryRunRecords | pageant.c:576-852 | the same of all requests at once, with every clear form in the store given for its key by an earlier event |
| AgentAnswers.AnswersAreJustified | pageant.c:702-852 | every reply is to a live request, and every failure has happened as its reason says, to that request's own key |
| AgentAnswers.ResumedExactly | pageant.c:674-740 | a resumed request is answered iff its key is in clear or it must ask and cannot, signs iff the key is in clear and its algorithm accepts, and otherwise waits for the open dialog or for its own |
| AgentAnswers.PassphraseUnlocksExactly | pageant.c:781-839 | a right passphrase makes the form loaded from the file the clear form of that key, if it was locked, and touches no other form, file or public key |
| AgentAnswers.StoreChangesExactly | pageant.c:351-852 | no event but a change and a right passphrase changes the keys |
| AgentAnswers.DisconnectExactly | pageant.c:583-596 | a client that goes away takes its own requests with it and disturbs no other |
| AgentAnswers.LinkedTwiceCrashes | pageant.c:614-634 | linking a request that is on some list already fails the assertion |
| AgentRuns.DrainWorks | pageant.c:674-743 | draining the queue empties it and never adds pending work, whatever is queued and whatever dialogs and algorithms say |
| AgentRuns.WaitingEnds | pageant.c:674-852 | if each prompt is settled, requests stay pending for at most as many rounds as there were requests, those without a dialog of their own counted twice |
| AgentWait.ResumedLine | pageant.c:677-699 | a resumed request keeps its place among those that wait for a dialog, or leaves them |
| AgentWait.BurstMoves | pageant.c:674-779 | until the next prompt is answered nobody gets ahead of a request who was not ahead of it before, whatever arrives |
| AgentWait.FirstIsServed | pageant.c:677-740 | once the queue is drained the first of those waiting has been answered, has its own dialog, or is gone |
| AgentWait.ServedInTurn | pageant.c:674-852 | a request is pending for at most two prompts more than there are requests ahead of it, and for one if its key's prompt is open, however many new requests arrive, if each prompt is settled and the queue drained before the next answer |
| AgentDiscipline.AddingIsAlwaysPermitted | pageant.c:351-407 | adding a key disturbs no open prompt and no live request |
| AgentDiscipline.RefusalDoublesExactly | pageant.c:747-779 | after a refusal no request is queued twice iff none waiting for the dialog was queued before |
| AgentDiscipline.PassphraseDoublesExactly | pageant.c:763-839 | after a passphrase that makes the key usable no request is queued twice iff none waiting for the key or the dialog was queued before |
| AgentDiscipline.ChangePermittedExactly | pageant.c:210-525 | a change of the key store keeps the invariant iff it takes no key from an open prompt, none from a live request that is not on the key's own list, and no clear form from a woken request whose key stays |
| AgentDiscipline.DeletionAnswersExactly | pageant.c:210-227 | a change of the key store answers exactly the requests on the lists of the private keys it deletes, each once and with a failure, and takes them off the queue; every other request is untouched, and no answer is taken back |
| AgentDiscipline.WokenKeyCanBeRemoved | pageant.c:210-227 | from every store with two encrypted keys a disciplined run reaches a state where a request is woken for its key, and removing that key is disciplined, answers the request with a failure and keeps the invariant |
| AgentDiscipline.DisciplineIsExact | pageant.c:576-852 | for every event, the step fails no assertion and keeps the invariant iff the event is disciplined |
| AgentDiscipline.DoubledCallbackCrashes | pageant.c:674-705 | a request queued twice resumes on a key that is still encrypted |
| AgentDiscipline.UndisciplinedRefusalCrashes | pageant.c:763-779 | from every store with two encrypted keys a disciplined run reaches a state where an early refusal leads to that crash |
| AgentDiscipline.ReencryptUnderWaiterCrashes | pageant.c:889-919 | re-encrypting the key of a woken request makes it resume on a missing key |
| AgentDiscipline.RemovalUnderPromptBreaksLock | pageant.c:477-501 | removing a key whose prompt is open leaves the lock held for a key that is gone, and answering is an error |
| AgentDiscipline.UndisciplinedReencryptCrashes | pageant.c:889-919 | from every store with two encrypted keys a disciplined run reaches a state where re-encrypting makes a woken request use a missing key |
| AgentDiscipline.UndisciplinedRemovalCrashes | pageant.c:477-501 | and one where removing the key of the open prompt makes answering it an error |
| AgentDiscipline.StarvingReached | pageant.c:801-803 | and one with the queue drained, no dialog open and a request still waiting for one |
| AgentImpl.Server.SignopUnlink | pageant.c:636-646 | a request leaves whichever list it is on |
| AgentImpl.Server.RequestPassphrase | pageant.c:656-672 | the lock is taken and the prompt marked iff the dialog could be put up |
| AgentImpl.Server.SignopCoroutine | pageant.c:674-740 | the coroutine, resumed at any of its points, does what the machine's step does |
| AgentImpl.Server.RunCallbackHead | callback.c:115-141 | running the head of the queue is the machine's step |
| AgentImpl.Server.FailRequestsForKey | pageant.c:747-761 | the loop answers and frees every request on the key's list, in order |
| AgentImpl.Server.UnblockRequestsForKey | pageant.c:763-770 | the loop queues every request on the key's list and unlinks none |
| AgentImpl.Server.UnblockPendingGuiRequests | pageant.c:772-779 | the loop queues every request waiting for the dialog and unlinks none |
| AgentImpl.Server.PassphraseSuccess | pageant.c:781-839 | every path of the handler, early returns included, is the machine's step |
| AgentImpl.Server.PassphraseRefused | pageant.c:841-852 | the handler is the machine's step |
| AgentImpl.Server.FreePrivate | pageant.c:210-227 | freeing a private key answers and frees the requests on its list, and the list goes with it |
| AgentImpl.Server.DelPubkeyPos | pageant.c:477-508 | the private key is freed, with its list, iff the deleted public key was its last sharer |
| AgentImpl.Server.RemoveKey | pageant.c:1287-1318 | removing a key by its blob is the machine's change of the store; an unknown key changes nothing |
| AgentImpl.Server.RemoveAllKeys | pageant.c:516-525 | the loop from the last key of a version back to its first frees private keys one by one, and in all is the machine's change, with the answers in its order |
| AgentImpl.Server.HandleOther | pageant.c:1287-1352 | a request that changes the store makes the machine's change at once and queues its reply behind it |
| AgentImpl.Server.ChangeLocally | pageant.c:1634-1664 | a change from the agent's own window is the machine's step |
| AgentImpl.Server.UnregisterClient | pageant.c:583-596 | all requests of the client leave every list and the queue, unanswered |
| AgentConn.ParseByte | pageant.c:1804-1852 | one more byte of the stream completes the frame in progress or prolongs it |
| AgentConn.HandedIndices | pageant.c:1811-1852 | a message handed on carries the number of its own frame among all frames |
| AgentConn.HandedExactly | pageant.c:1846-1848 | a message is handed on iff it is a frame of possible length, and in the order of the frames |
| AgentConn.FramesAreBodies | pageant.c:1802-1844 | a stream of framed bodies parses to exactly these bodies, and to its length for each of an impossible length |
| AgentConn.EveryMessageIsHandedOn | pageant.c:1795-1855 | whatever bodies of possible length a client frames and sends, exactly these are handed on, each once, in order |
| AgentConn.OutputIsFramed | pageant.c:1759-1779 | what is written is the replies, framed, in the order of the requests |
| AgentConn.Connection.GotResponse | pageant.c:1759-1779 | the reply is stored with its request, the answered head of the queue is written out in order, and afterwards the head is unanswered or the queue empty |
| AgentConn.Connection.ReceiveByte | pageant.c:1802-1852 | between bytes the coroutine's variables hold exactly the unfinished frame, and the buffer is never written past its end |
| AgentConn.Connection.Receive | pageant.c:1795-1855 | however the stream is cut, the messages handed on are those of the whole stream; the coroutine itself answers every impossible frame and no other |
| AgentConn.Connection.Answer | pageant.c:1759-1779 | answering any message handed on, in any order, keeps the replies written in request order, each once |
| Callbacks.EveryHistoryOnce | callback.c:29-70 | in every history an idempotent callback is queued at most once, and only with its flag set |
| Callbacks.FirstInFirstOut | callback.c:85-141 | without deletions everything queued is run once, in the order of queueing |
| Callbacks.FilterIs | callback.c:44-70 | after a deletion exactly the tasks the predicate spares are left |
| Callbacks.FilterAppend | callback.c:44-70 | deletion keeps the order of what stays |
| Callbacks.DeleteKeepsExactly | callback.c:44-70 | a deletion keeps the flags in agreement with the queue iff it spares every idempotent callback that is queued; otherwise which flags are left set |
| Callbacks.HistoryAgreesExactly | callback.c:29-70 | after a history flags and queue agree iff each of its deletions spared what was queued |
| Callbacks.QueueingWorksExactly | callback.c:36-42 | asking for any idempotent callback leaves it queued iff flags and queue agree |
| Callbacks.ContextIsGoneExactly | callback.c:72-83 | deleting for a context removes exactly that context's callbacks, and keeps the agreement iff none of its idempotent ones was queued |
| Callbacks.DeletedNeverReturns | callback.c:36-42 | a callback whose flag is set and which is not queued is never queued or run again |
| Callbacks.CallbackQueue.Append | callback.c:85-113 | the list gets one task at its end, and the front end is notified iff nothing was queued or running |
| Callbacks.CallbackQueue.QueueIdempotent | callback.c:36-42 | queued iff the flag was clear |
| Callbacks.CallbackQueue.Sift | callback.c:50-64 | the loop relinks exactly the nodes that stay, in order |
| Callbacks.CallbackQueue.Delete | callback.c:44-70 | the list is filtered in place, head and tail stay consistent |
| Callbacks.CallbackQueue.DeleteForContext | callback.c:80-83 | the list loses the context's callbacks, by the predicate the code passes |
| Callbacks.CallbackQueue.BeginRun | callback.c:115-134 | the head leaves the queue before it runs, and an idempotent one clears its flag first |
| Callbacks.CallbackQueue.Pending | callback.c:143-146 | something is pending iff something is queued or running |
| Text.GetLineIs | utils/marshal.c:265-286 | a written line is read back without its end |
| Marshal.StrIs | utils/marshal.c:206-221 | reading a string after writing it gives the string and leaves the rest |
| Marshal.Source.GetString | utils/marshal.c:131-221 | the cursor with its sticky error is the functional reader |
| Marshal.StrExactly | utils/marshal.c:206-221 | a string is read without error exactly from where it was written |
| Bytes.Uint32Orders | utils/marshal.c:184-192 | lengths are written with the most significant byte first |
| Marshal.FoldDigits | import.c:218-246 | accumulating the digits of a value gives the value, and there is no leading zero digit |
| Marshal.DigitIs | import.c:228-246 | the bytes written are the low ends of the shifted value, as many as the value needs |
| Ber.PutIdLen | import.c:212-248 | the two counting and writing loops write the header |
| Ber.Get | import.c:264-294 | the reading loops are the functional reader, errors included |
| Ber.ReadEncoded | import.c:212-294 | a written header followed by its data and anything else reads back as the same id, flags and data, and leaves the rest |
| Ber.ReadEncodedAll | import.c:935-942 | a sequence of encoded items reads back item by item |
| Mpints.CanonIs | import.c:320-335 | the bytes written keep the value, are the canonical form, and a canonical number is unchanged |
| Mpints.CanonUnique | import.c:320-335 | two byte strings are written alike iff they have the same value |
| Mpints.PutMpSsh2 | import.c:320-335 | the stripping loop writes the canonical form |
| Mpints.ComBitsExact | import.c:1929-1944 | the bit count written is the number of bits of the value, or one for a zero that has any bytes |
| Mpints.ComBytesCount | import.c:1929-1953 | the bytes written are as many as the reader computes from the bit count |
| Mpints.PutMpSshcom | import.c:1929-1944 | the bit-by-bit search writes that count and those bytes |
| Mpints.GetPutCom | import.c:1929-1953 | a number written with its bit count is read back and leaves the rest |
| Mpints.ThroughCom | import.c:1929-1953 | a canonical number that goes through the ssh.com form comes out the same |
| Mpints.DerIntShortest | import.c:867-890 | the derived integers take (bits+8)/8 bytes, are non-negative, and have the right value |
| Mpints.ShorterIsNot | import.c:879-888 | no shorter non-negative encoding has that value |
| Mpints.WriteDer | import.c:879-888 | the loop writes those bytes, most significant first |
| Base64.AtomRoundTrip | utils/base64_encode_atom.c:8-30 | a group of one to three bytes is decoded to itself, padding included |
| Base64.EncodeLines | utils/base64_encode.c:3-28 | the writer breaks the characters into lines of the given length, the last one ended too |
| Base64.FeedAppend | import.c:1153-1178 | where the characters are cut does not matter to the four-character accumulator |
| Base64.LineBreaksDoNotMatter | import.c:1147-1184 | decoding lines is decoding their characters joined, for lines of any lengths |
| Base64.FeedChars | import.c:1153-1178 | the accumulator decodes what the writer encoded |
| Base64.ReadLine | import.c:446-470 | the loop over one line is the accumulator on the base64 characters it starts with |
| Base64.CutIs | utils/base64_encode.c:16-25 | the written lines are never longer than asked for and join to all the characters |
| Standards.AlphabetExactly | utils/base64_encode_atom.c:8-30 | the characters written and read are those of table 1 of RFC 4648 |
| Standards.GroupRefusedExactly | utils/base64_decode_atom.c:7-54 | a group of four is refused exactly for a foreign character or for padding in the wrong place |
| Standards.Base64Vectors | utils/base64_encode_atom.c:8-30 | the test vectors of RFC 4648 with padding |
| Standards.MpintVectors | import.c:320-335 | the examples of section 5 of RFC 4251 |
| Standards.BerVectors | import.c:212-248 | the length examples of ITU-T X.690 |
| Standards.EndLineExactly | import.c:389-398 | which lines end a PEM file |
| Standards.CurveVectors | import.c:947-997 | the object identifiers of RFC 5480 and the size of a curve's points |
| Standards.FileRecord | pscp.c:814-830 | a file's control record, byte for byte |
| KeyText.LoadText | import.c:339-505 | the line loop of the loaders is the specified load, the endless loop included |
| KeyText.BeginExactly | import.c:355-384 | a file is taken for the kind its first line names, in full, and for no other |
| KeyText.EndOfFileChangesNothing | import.c:389-473 | at the end of the data a turn of the loop changes nothing it depends on, so it never ends |
| KeyText.LoopExactly | import.c:389-473 | the line loop refuses, finishes or reads for ever exactly as some line is refused first, some line ends the file, or neither |
| KeyText.LoadSpinsExactly | import.c:339-505 | a whole load reads for ever iff its first line is right, no later line is refused and none ends the file |
| KeyText.HasEndIsALine | import.c:389-473 | in the two OpenSSH formats the lines looked at are all lines of the text |
| KeyText.NewReadableExactly | import.c:1147-1184 | a new-style file is refused only for its base64 |
| KeyText.CutFileSpins | import.c:1147-1184 | lines of valid base64 without a last line behind them are read for ever |
| KeyText.EndLineSwallowed | import.c:1797-1829 | an ssh.com file with its last line in place is read for ever when the header before it ends with a backslash |
| KeyText.BodyLoads | import.c:1147-1184 | a body of any line length and the last line load as the body's bytes |
| KeyText.NewBodyIs | import.c:1147-1184 | a new-style file that is read holds what all its base64 characters together decode to |
| KeyText.BodyRefusedExactly | import.c:475-505 | a file whose lines are in order is refused all the same exactly for an empty body, or an encrypted one that is not whole blocks |
| KeyText.HeaderIs | import.c:400-406 | a header line in front of the body is read as its name and value |
| KeyText.ReadHexExactly | import.c:425-441 | a vector is read exactly from the digits that make it |
| KeyText.DekInfoExactly | import.c:419-443 | a DEK-Info header sets the cipher and the vector, of eight or sixteen bytes, exactly for hex digits of that many |
| KeyText.ProcTypeExactly | import.c:408-418 | a file is of version 4 or refused, one word says that it is encrypted, and other headers pass |
| KeyText.LateHeadersRefused | import.c:400-407 | a line with a colon is a header and is refused once the body has begun; in the ssh.com format only then |
| KeyText.OtherHeadersPass | import.c:1797-1841 | of the ssh.com headers only the comment is kept |
| KeyText.CommentExactly | import.c:1833-1841 | a comment loses its quotes if it has them at both ends, and what is over 255 characters |
| KeyBlobs.ReadStringsIs | import.c:855-865 | the strings of a key blob are read back one by one |
| OpensshPem.GatherIntegers | import.c:847-930 | the integers of the file are those of the key's blobs, with d mod p-1 and d mod q-1 derived |
| OpensshPem.PutIntegers | import.c:935-939 | the loop writes the items one after another |
| OpensshPem.PutEcItems | import.c:964-997 | the four items of an ECDSA key, with the curve and the point in items of their own |
| OpensshPem.Protect | import.c:1016-1050 | one to eight bytes of padding, each their number, fill the last block, and the whole is encrypted under the first two blocks of the derivation |
| OpensshPem.ProtectedIs | import.c:521-549 | the encryption key is the first two blocks of a chain, each the hash of the block before, the passphrase and the first eight bytes of the vector |
| OpensshPem.DecryptedIs | import.c:551-610 | both ciphers read under the first two blocks of that chain, with as much of the vector as each needs |
| OpensshPem.Write | import.c:802-1075 | the exporter writes the specified file |
| OpensshPem.ReadIntegers | import.c:713-752 | the loop over the integers puts the blobs together, ignoring integers 6 and 7 |
| OpensshPem.HeadersAreRead | import.c:400-443 | the two headers and the blank line give the encryption flag, the cipher and the vector |
| OpensshPem.BodyParses | import.c:612-760 | the ASN.1 body of any key parses to the key's own blobs, whatever follows it |
| OpensshPem.IntegersExactly | import.c:644-760 | an RSA or DSA body is read exactly when its items are all there, all INTEGERs, and the first is zero; and which of them make which blob |
| OpensshPem.SmallKeysFit | import.c:802-1010 | the writer's conditions hold of every key with numbers below 128 megabytes |
| OpensshPem.WrongPassphraseMeansEncrypted | import.c:551-790 | only a file that says it is encrypted is taken for one with another passphrase |
| OpensshPem.HangsExactly | import.c:339-790 | a read hangs exactly when the line loop does not end |
| OpensshPem.PemRoundTrip | import.c:551-1075 | importing what was exported rebuilds the public and private blobs, for RSA, DSA and ECDSA, with or without a passphrase |
| OpensshNew.PutPad | import.c:1601-1605 | the loop adds 1 to 16 bytes counting from 1, to a multiple of 16 |
| OpensshNew.CheckPad | import.c:1500-1507 | the reader accepts exactly bytes counting from 1 and wrapping at 256 |
| OpensshNew.PaddingIsExact | import.c:1500-1605 | of that many bytes the reader accepts the writer's padding and nothing else |
| OpensshNew.Write | import.c:1527-1645 | the exporter writes the specified container |
| OpensshNew.UnpackIs | import.c:1191-1281 | the loader recovers cipher, derivation with its salt and rounds, and the private section |
| OpensshNew.UnpackExactly | import.c:1191-1281 | the loader takes exactly the files of one key in the layout, with the name of a known cipher and a derivation that is well stated |
| OpensshNew.OpensExactly | import.c:1425-1525 | a section opens exactly when it holds one check number twice, a known key, its comment, and right padding |
| OpensshNew.FileOpensExactly | import.c:1322-1525 | whoever wrote a file, with any of the ciphers, any salt and any rounds, it is read as a key and comment exactly when, deciphered as it says itself, it contains them |
| OpensshNew.NewRoundTrip | import.c:1322-1645 | importing what was exported gives the same key and comment, with or without a passphrase |
| Sshcom.WriteComment | import.c:2325-2341 | the loop writes the folded comment header |
| Sshcom.CommentLinesAreShort | import.c:2325-2341 | no line of the header is longer than 71 characters |
| Sshcom.JoinsAgain | import.c:1806-1829 | the reader joins the lines to the original, a backslash at a break included |
| Sshcom.CommentIsRead | import.c:1797-1841 | any comment without a newline or zero byte comes back, up to 255 characters of it |
| Sshcom.WriteBlob | import.c:2266-2318 | the back-patched lengths are those of the nested strings, and the payload is encrypted in place |
| Sshcom.SealedIs | import.c:1958-1976 | the encryption key is the first two blocks of a chain, each the hash of the passphrase and all blocks before it, and the vector is zero |
| Sshcom.Write | import.c:2179-2355 | the exporter writes the specified file, and refuses other key types |
| Sshcom.PayloadIs | import.c:2101-2150 | the payload of any key, with p and q exchanged in the file, parses to the key's own blobs |
| Sshcom.PayloadExactly | import.c:2086-2160 | a payload is read exactly when its six or, behind a zero, five numbers are all there, each with as many bytes as its bit count says |
| Sshcom.ContainerIs | import.c:1997-2085 | the container is opened to its protected part |
| Sshcom.UnsealedIs | import.c:2032-2085 | an encrypted key is read as the unencrypted one with the deciphered data would be, and where that fails it is for the passphrase |
| Sshcom.TakenIsLaidOut | import.c:1995-2045 | nothing but a file in the layout, of a known key type and cipher, is read or taken for one with another passphrase |
| Sshcom.SshcomRoundTrip | import.c:1978-2355 | importing what was exported gives the same blobs and the comment's first 255 characters, with or without a passphrase, whatever the random padding |
| Duplex.Conservation | pscp.c:578-608 | what was in flight and is put, is got or still in flight, in order |
| Duplex.NeverStuck | pscp.c:578-608 | two processes whose operations merge into one complete conversation can always go on, wherever each has got to, until both have finished |
| Duplex.ExpectedByte | pscp.c:578-608 | under every schedule a process is given the byte its own sequence says |
| Duplex.EveryScheduleCompletes | pscp.c:578-608 | every schedule that cannot be prolonged has run both processes to their ends |
| ScpWire.ParseFileText | pscp.c:820-829 | mode, size and name of a control record are scanned back |
| ScpWire.ParseTimeText | pscp.c:1424-1432 | the times of a control record are scanned back |
| Scp.Sender.Source | pscp.c:1602-1704 | sending a file in blocks, or a directory, puts and awaits the specified operations |
| Scp.Sender.SendData | pscp.c:1671-1681 | blocks of 4096 bytes are the whole file in order |
| Scp.Receiver.ReceiveData | pscp.c:1921-1956 | blocks of 32768 bytes are exactly the announced bytes, iff they all arrive, and are written as far as there is room, with an error iff that is not all; after an earlier error of the level nothing is written and the error stands |
| Scp.Receiver.RunSink | pscp.c:1756-1974 | the loop, calling itself for directories and carrying the level's write error from item to item, is the specified receiver, on every input |
| Scp.Receiver.RunStore | pscp.c:1862-1956 | one announced item is stored or reported as specified, and the write error of the level is set iff it was before or this item's data did not fit |
| ScpTarget.StrippedExactly | windows/sftp.c:359-380 | stripping a name leaves exactly its last component, behind the last slash or backslash or the first colon |
| ScpTarget.DestinationExactly | pscp.c:1782-1890 | in a directory an item goes one component down, by the last component of the name sent, or of the name asked for where one was; and is refused exactly for a name of dots |
| ScpTarget.SinkStaysBelow | pscp.c:1756-1974 | on every input, a level changes nothing but files and directories at its target or below it by components without separators, loses nothing, and makes directories only when recursive |
| ScpRecords.DecisiveExactly | pscp.c:1391-1467 | which first byte and which text announce an item, end a directory, end the level, or end the copy |
| ScpRecords.SpoiledExactly | pscp.c:1404-1418 | a file record behind an error record is read as sent iff the message is blank but for zeros at its end |
| ScpRecords.ErrorRecordSpoilsNext | pscp.c:1404-1467 | so of the two records together; behind a message that begins with a word the copy ends |
| ScpRecords.ResponseExactly | pscp.c:578-608 | which responses are taken, and exactly how many bytes of them |
| ScpRecords.RefusedExactly | pscp.c:1862-1905 | an item is refused, reported and changes nothing iff something of the other kind or the disk is in the way; otherwise it is at its place |
| ScpRecords.NeedsDirectory | pscp.c:1770-1776 | a level gives up before anything iff its target had to be a directory and is not |
| ScpTheorem.SinkOnTree | pscp.c:1756-1974 | the receiver consumes exactly one tree's bytes and stores that tree |
| ScpTheorem.WriteErrorGivesUpExactly | pscp.c:1925-1967 | where no write error came before on the level, the receiver goes on from a file's bytes with the file stored iff there is room for all of it, and otherwise gives up whatever follows |
| ScpTheorem.WriteErrorLasts | pscp.c:1764-1967 | after a write error each later file of the level is consumed, created empty and reported, and the error stands for the next, if no zero byte follows the data |
| ScpTheorem.MovesAre | pscp.c:578-1019 | the sender's and the receiver's operations on a tree are the two halves of one complete conversation |
| ScpTheorem.CopyTheorem | pscp.c:1602-1974 | for every forest of clean names that the file system and the disk take, the session is complete, every wait is matched by one zero byte, and the receiver ends with the trees laid over its file system |
| ScpPrefix.PrefixOfInput | pscp.c:1756-1974 | on a prefix of its input the receiver does a prefix of what it does on the whole, for every input |
| ScpPrefix.ReceiverFollows | pscp.c:1602-1974 | however far the sender has got, the receiver has done the beginning of its half of the session |
| ScpPrefix.CopyGoesOn | pscp.c:578-1974 | wherever the two have got to one can go on unless both have finished, and the byte read next is the one its reader's half says |
| ScpPrefix.EveryScheduleOfCopy | pscp.c:578-1974 | a schedule of a copy that cannot be prolonged has finished it, and none is longer |
| ScpTheorem.OverlayAllIs | pscp.c:1862-1974 | path by path, what is found afterwards is what the trees have there, and otherwise what was there |
| ScpTheorem.ExactCopy | pscp.c:1602-1974 | into a directory where none of the names is taken, on a disk that takes everything, the receiver holds exactly the sender's trees, and everything else as before |
| SftpWalk.ReadNames | pscp.c:1274-1320 | the batches up to the first empty one, without dots and without names that are refused |
| SftpWalk.NamesExactly | pscp.c:1274-1320 | a directory's list has every name given before an empty batch as often as it was given, but no dot name and none that is refused |
| SftpWalk.Walker.GetSinkAction | pscp.c:1129-1388 | one call with the explicit stack is the specified step |
| SftpWalk.StepIs | pscp.c:1139-1200 | each call emits the next action of the traversal or none, and comes exactly one call nearer to the end |
| SftpWalk.WalkIsTraversal | pscp.c:1129-1388 | over every finite remote tree the walk emits exactly the actions of the recursive traversal, with or without a wildcard |
| SftpWalk.DownloadIsBracketed | pscp.c:1179-1199 | every directory begun is ended, and nothing else is |
| SftpWalk.TransferIsHonest | pscp.c:1129-1388 | whatever the server answers and however long the walk goes on, each action is about the target or a path below it by listed names that passed the check, and says what the server said of that path |
| SftpWalk.NameOfChild | pscp.c:1354-1371 | an action below a directory is named as the directory's list names it |
| Dialog.Compare | dialog.c:28-40 | the number of whole path elements in common, or INT_MAX for identical paths |
| Dialog.Ultra | dialog.c:28-40 | matching is symmetric, and a third path matches at least as well as the weaker of two matches |
| Dialog.SubtreesTogether | dialog.c:89-108 | in a contiguous list the match counts with any path rise and then fall |
| Dialog.TogetherIsContiguous | dialog.c:89-108 | and a list where they do is contiguous |
| Dialog.FindIsSlot | dialog.c:89-108 | the place found is one where a set of the path can stand |
| Dialog.FindsFirst | dialog.c:96-104 | if the path has sets, the first of them is found |
| Dialog.InsertKeeps | dialog.c:140-148 | inserting at such a place keeps all subtrees contiguous |
| Dialog.GetFinds | dialog.c:151-162 | asking for a set finds it if it is anywhere in the box |
| Dialog.EveryBox | dialog.c:129-177 | from an empty box, every history keeps all subtrees contiguous and never makes two sets of one path and name |
| Dialog.PanelsInOrder | dialog.c:129-177 | over every history each panel holds what a list of its own would: titles at its front, the last given first, and its boxes in the order asked for, each once |
| Dialog.NewPanelIsBehindTheBest | dialog.c:89-108 | a new panel goes right behind the last set that shares the most path elements with it |
| Dialog.FindPathIsNext | dialog.c:115-126 | stepping through a panel misses no set of it and enters no other panel |
| Dialog.ControlBox.Find | dialog.c:89-108 | the scan is the specified search |
| Dialog.ControlBox.Place | dialog.c:141-147 | the tail of the array moves up by one and the new set takes the place |
| Dialog.ControlBox.SetTitle | dialog.c:129-149 | the array holds the specified list afterwards |
| Dialog.ControlBox.GetSet | dialog.c:151-177 | the array holds the specified list, and the set returned is the one asked for |
| Ldisc.AddIs | ldisc.c:280-300 | new bytes join the end of the queue with their type, and the chunks stay in normal form |
| Ldisc.ConsumedIs | ldisc.c:187-204 | consuming drops exactly the first bytes with their types, and the chunks stay in normal form |
| Ldisc.PassCarries | ldisc.c:307-390 | the events of a pass hand on exactly the first typed bytes of the queue, in order, with their type where the receiver is told it |
| Ldisc.PassRoutes | ldisc.c:315-388 | who gets what in a pass: the prompt what it takes, each byte with its key flag; then the editor all the rest, or the screen (iff echoing) and after it the back end, key by key in Telnet or in one piece |
| Ldisc.LoopRoutes | ldisc.c:307-390 | the same of all passes of one loop |
| Ldisc.HistoryRoutes | ldisc.c:252-390 | the same over every history |
| Ldisc.EchoIsTheInput | ldisc.c:348-349 | in a session that echoes and edits nothing locally the screen shows exactly the input that has been handed on |
| Ldisc.NothingIsShown | ldisc.c:348-349 | where echoing is off, or lines are edited, nothing is shown this way |
| Ldisc.PassConservesExactly | ldisc.c:307-390 | the events of a pass hand on the front of the queue and the rest is kept iff a prompt and a bulk send do not meet in it; when they do, which bytes are kept although they have been sent |
| Ldisc.KeptThoughSentExactly | ldisc.c:381-388 | bytes stay in the queue although they have been handed on iff a prompt took some in a pass that sends the rest in one piece |
| Ldisc.PassProgresses | ldisc.c:307-390 | a pass that may send shortens the queue unless a prompt swallowed a whole bulk send |
| Ldisc.AllowedExactly | ldisc.c:252-390 | which typing and which turns those histories are made of |
| Ldisc.EveryByteOnce | ldisc.c:252-390 | over every history of such passes the events hand on each byte typed once, in order, and the queue holds the rest |
| Ldisc.EveryByteFromTheStart | ldisc.c:252-390 | so from an empty queue, over all that was typed |
| Ldisc.AddValidExactly | ldisc.c:270-305 | queueing leaves no empty chunk iff there are bytes, or the chunk before is of the same type |
| Ldisc.ZeroHeadBlocks | ldisc.c:307-390 | with an empty chunk at the head a pass consumes nothing and hands nothing on |
| Ldisc.ZeroHeadStays | ldisc.c:307-390 | so the callback's loop never gets past it |
| Ldisc.NextSpecialHeals | ldisc.c:280-300 | more special input typed at once fills the empty chunk |
| Ldisc.EmptySpecialBlocks | ldisc.c:270-305 | an empty special string behind other input, followed by other input, leaves the empty chunk at the head once what was before it is consumed |
| Ldisc.LineDiscipline.Consume | ldisc.c:187-204 | the loop over the chunk list is the specified consumption |
| Ldisc.LineDiscipline.Enqueue | ldisc.c:252-300 | typed, pasted and special input is queued with its type, empty strings included |
| Ldisc.LineDiscipline.RunPass | ldisc.c:315-388 | one turn of the loop delivers and consumes what is specified, byte by byte or in bulk |
| Ldisc.LineDiscipline.Callback | ldisc.c:307-390 | the loop runs passes until the queue is empty or the back end can take no more |
| PacketDump.CurrentMask | logging.c:322-336 | the moving position in the ranges gives each byte what its range says |
| PacketDump.CellExactly | logging.c:262-343 | a byte is blanked or omitted exactly if it stands in a range that says so, and any other is shown as it is |
| PacketDump.LogReadsBack | logging.c:319-377 | the rows and omissions read back as every byte of the packet in order, shown, blanked or counted, each as the ranges say |
| PacketDump.TextReadsBack | logging.c:351-378 | the character columns spell the packet: one glyph for each byte that is not omitted, in order, under its own hex column |
| PacketDump.InitRow | logging.c:345-349 | the template holds the row's offset and no columns |
| PacketDump.PutCell | logging.c:351-366 | a byte goes to its own two hex columns and its own character column, and no other place changes |
| PacketDump.Flush | logging.c:371-378 | the row is cut off after its last character |
| PacketDump.LogPacket | logging.c:262-380 | the loop writes exactly the specified rows and omissions, with every write inside the buffer |

## Left out

- AgentRuns.WaitingEnds: counts rounds in which a prompt is refused or given the right passphrase; a user who answers wrongly for ever keeps the requests pending, as in the code.
- AgentWait.ServedInTurn: counts such prompts too, with the queue drained before each answer; while prompts are answered faster than the queue is drained, requests can run doubled (`RefusalDoublesExactly`).
- Callbacks.ContextIsGoneExactly: addresses are numbers, and the number of an idempotent callback stands for its address.
- AgentImpl.Server.UnregisterClient: the order in which one client's requests are freed is not fixed, since only their absence can be observed.
- KeyStore.FindFinds: `findpubkey1` and `findpubkey2` build their sort keys from key blobs with `make_base_pub_2`; the model is given the sort keys.
- KeyText.LoadText: the initialisation vector in a DEK-Info header must be two hex digits for each byte; the spaces, signs and single digits that `sscanf` also takes are refused here. An encrypted file without a DEK-Info header, for which the code reads an unset field, counts as triple DES.
- ScpWire.ParseFileText: numbers are scanned without sign and without overflow, and a zero byte does not cut a control record short.
- Scp.Receiver.RunSink: when the receiver gives up in the middle of a record or a block, the specified trace ends before its incomplete bytes, and a file cut off in the middle counts as empty; the mode bits of a file that already exists are taken to change. Renaming and path checks are those of the Windows file layer, which also covers the Unix separators.
- ScpTheorem.CopyTheorem: sources that cannot be opened, and names that the receiver renames or refuses, are outside the theorem.
- SftpWalk.WalkIsTraversal: a server that fails a request in the middle of the walk ends it there; the theorem is for servers that answer.
- Ber.ReadEncoded: lengths are those of a C int, and shifts are mathematical.
- Mpints.GetPutCom: numbers are short enough for their bit count to fit a C int, as the writer computes it.
- PacketDump.LogPacket: the header line of a packet, and the open and flush states of the log file.
- Ldisc.LineDiscipline.Callback: what the line editor and the prompt do with a byte, including calls back into the queue.
- Dialog.ControlBox.GetSet: the controls inside a set.
- The straight-line parts of the three key readers are functions over the cursor; their loops are methods.
- Cutting a wildcard off a remote path (`scp_sink_setup`), the SFTP halves of the sending helpers, and progress statistics.
- Key algorithm codecs, fingerprints, the message parsing of the agent beyond sign requests, and extension messages.
- SSH-1 key files, public-key formats, certificates, `cmdgen.c` and the other command-line front ends.
- Error wording, logging text, memory clearing and freeing.
