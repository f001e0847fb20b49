# A verified model of the chess trainer's core

A Dafny 4.11 model of the parts of the program whose correctness is hardest to see: the chess rules and
their notations, the event-sourced store, the two schedulers, the staging of browser observations, and
the JSON codec beneath them. `dafny verify dfyconfig.toml` checks everything; the project uses nothing
outside itself.

Code that changes things in place is modelled by classes and loops (`Board`, `EventLog`, `Repository`,
`EnginePool`, `JobManager`, `BrowserObservationLedger`, `HostedBrowserObservationStore`, `Parser`), each
method proved equal to a specification function of the old state. The main theorems are about those
functions, over every input, every run or every interleaving.

## What is modelled

**Chess**. A position is 64 squares, side, castling rights, en-passant square, 16-bit clocks, key and
repetition history. `MoveGen` states the rules of movement by directions, as the program does, and that
generation is exact; `Rulebook` states them by squares and distances alone, and that the two are one;
`Attacks` that the outward attack test and the forward generators agree on every board; `MoveEffects` what a
move makes of every field; `PositionKeys` that every single difference shows in the key; `Legality` what every
run of legal moves keeps; `PerftCount` and `PerftTallies` that perft and its counters count legal sequences. `San`, `Fen` and `Pgn` are the notations of the PGN
Specification and Implementation Guide (sections 8.2.3 and 16.1) as the program writes and reads them, with
their round trips. What a text says, apart from how it is written or read, is told by `Notation`, `FenGrammar`
(and `FenShortest`), `PgnTags`, `PgnMainline`, `PgnNumbers` and `PgnIdentity`.

**The store**. A log is bytes; `Records` and `ReplayProofs` give the record codec and what replay makes of any
bytes at all; `RecordLayout` tells records by the places of their fields, and `CrcDivision` shows the checksum to be the remainder of a polynomial division. `Events` is the
typed fold, and `FoldMeaning` reads each value of it off the log. `Agreement` cuts a projection into cells and
shows which cells each event overwrites; on it rest `Compaction` (exactly when the rewrite preserves the fold;
`CompactionShape` says by kind and key what stays) and `Snapshots` with `SnapshotRuns` (a snapshot and the events after it stand for the
whole log, also after later compactions). `Crashes` is the machine of appends, torn writes, deaths,
reopenings and recoveries. `Appends` says what an appended record is to the next replay behind any bytes at
all; `Decodings` and `StoreRuns` that runs of the bytes and files, crashes included, are runs of the typed log.
`Repositories` carries the invariant that the memory agrees with folding the events read and appended, through
every operation; on a log that was not torn when opened those are the events of its bytes, so that `Restart`
loses nothing. `RepositoryMeaning` says what the operations decide: attempts, hints, drills, variation trees.

Two projections agree when they are equal except that a shallow analysis does not count where a full one
exists: live code clears it, replay does not, compaction drops it.

**Schedulers** (`Pool`, `Jobs` and the modules named after them). Each region under a mutex is one step of a
machine; workers and callers interleave freely. `PoolProofs` and `JobProofs` say what every run keeps,
`PoolOrder`, `JobRetries` and `JobEffects` what single steps decide and how often work is tried.

**Observation staging** (`Observations`, `Ledgers`, `HostedStores`). One rule for accepting observations, the two
stores that follow it (`StagingAgreement`), the bundle either returns, and the review assembled from it
(`BrowserReviews`, `ReviewResults`). `StagingOwners` shows that owners do not meet.

**JSON** (`Json`, `JsonRoundTrip`, `JsonText`). The parser and the writer, RFC 8259 texts with a nesting limit of
64; a character stands for a byte. `JsonGrammar` gives the grammar by derivation trees and shows the parser to read
exactly what they derive, with `JsonSpelling` for numbers and blanks and `Utf8Escapes` for escapes; `JsonShortest`
that the writer's text is a shortest one. `ObservationJson` carries observations through it, so the hosted store
compares and returns real texts.

## Where the program and its intent part

- Compaction tells events apart by kind and key without reading the rest. An event that leaves out the value
  of its kind (a batch state without `paused`), or whose body no longer decodes, therefore drops the earlier
  events of its kind and key while replay takes nothing from it: a pause, a profile, a variation or a
  shallow analysis can be forgotten. `Compaction.CompactionExact` gives the exact condition for every log,
  `CompactionForgetsPause`, `CompactionForgetsProfile` and `CompactionForgetsAnalysis` give logs. Every event
  the program itself writes is complete, and `CompactionPreserves` shows that such logs lose nothing.
- Start-up opens a log that is torn and damaged as it is: recovery cuts a torn tail off only where nothing is
  damaged. What is then appended can be claimed by the torn record and lost to the next start-up, though the
  operation succeeded (`Appends.TornAppendLost`, `Repositories.TornPauseForgotten`). `Appends.AppendSurvives`
  says exactly when an append survives; behind a log that is only damaged it always does (`AppendReplays`).
- The runs table demands `next_sequence <= expected_observations`, so the hosted store refuses every
  observation of a run begun with an expected count of zero, which the ledger accepts.
  `StagingAgreement.StepAgrees` gives the exact condition, `UncountedRuns` an observation. The HTTP service
  always passes twice the number of plies.
- The hosted store begins runs under any game or run name its tables take, such as "run 1"; the ledger takes
  only identifiers. `StagingAgreement.SpacedNameDiffers` shows it, and the same theorem includes it.
- The ledger has two bounds the hosted store does not have; past them the answers differ, and the same
  theorem says exactly when.
- A drill may be added, or replayed, with attempts of its own, which do not move the attempt counter: the next
  attempt can then reuse one of their numbers (`Repositories.AttemptNumberReused`). `Counters.DrillBelow` and
  the contracts of `AddValidatedDrill` and `ApplyEvent` say exactly when numbers stay fresh.
- When recording a job's state fails just after its deep task was queued, the handler decides by the quick task
  it still holds: it marks the job failed and leaves the task in the queue (`JobProofs.LateFailureBreaks`),
  queues a second task (`LateQueuesTwice`), or takes a job that is complete by then out of that state
  (`LateLeavesComplete`). `LateExact` gives the exact condition; the interleavings of `JobSafety` are those in
  which that call does not fail.
- A task of the middle class promoted while it runs has its source asked to stop (`JobEffects.PromoteAsks`), yet only
  historical tasks count as preempted: when its body ends in the failure that follows, it goes back with an attempt
  counted and the same stopped source (`JobRetries.StoppedGoesBack`), so that its next runs are stopped as well while
  its retries last.

## Model

| member | source | states |
|---|---|---|
| `Attacks.AttackAgreesWithGeneration` | src/chess/board.cpp:145-405 | On every board whatsoever, a square held by an enemy man is attacked by the side to move if and only if some pseudo-legal move of that side ends there: the outward scan and the forward generators agree for all six kinds of man |
| `Attacks.OutwardScanExact` | src/chess/board.cpp:145-211 | The outward scan from a square finds an attacker exactly when some man of that colour bears on the square by the rules of movement |
| `MoveGen.PseudoLegalMovesExact` | src/chess/board.cpp:218-405 | Generation is sound and complete: a move is generated if and only if the rules of movement allow it, on every board |
| `Rulebook.BearsExact` | src/chess/board.cpp:145-211 | A man bears on a square as told by the two squares alone: one file aside and one rank ahead for a pawn, a product of two for a knight, a clear line or diagonal, one step for a king |
| `Rulebook.ThreatExact` | src/chess/board.cpp:145-211 | A square is attacked if and only if some enemy man so bears on it |
| `Rulebook.CheckExact` | src/chess/board.cpp:213-216 | A side with one king is in check if and only if an enemy man bears on it |
| `Rulebook.MovesExact` | src/chess/board.cpp:218-405 | The moves generated, flags and promotions included, are those of a rulebook told by squares and distances without the tables of directions, castling and en passant included, on every board |
| `MakeMove.TakeBackUndoesPlay` | src/chess/board.cpp:430-531 | Taking back a pseudo-legal move restores the whole position (squares, rights, en-passant square, clocks, key and repetition history) wherever the en-passant square is truthful, as in every well-formed position |
| `MoveEffects.EnPassantExact` | src/chess/board.cpp:482-485 | After a move there is an en-passant square if and only if a pawn went two ranks, and it is the one square between |
| `MoveEffects.EnPassantOffered` | src/chess/board.cpp:240-256 | After a pawn went two ranks every enemy pawn beside it has the pseudo-legal capture of that square, and capturing empties the square of the pawn passed |
| `MoveEffects.HalfmoveExact` | src/chess/board.cpp:430-496 | The half-move clock is zero exactly after pawn moves and captures, and otherwise one more (in 16 bits) |
| `MoveEffects.FullmoveExact` | src/chess/board.cpp:430-496 | The move number rises exactly after Black's moves, and the side to move changes |
| `MoveEffects.HistoryGrows` | src/chess/board.cpp:430-496 | The history is what it was followed by the key of the position reached |
| `MoveEffects.KeyBlind` | src/chess/board.cpp:612-641 | The key does not depend on an en-passant square that no pawn of the side to move bears on |
| `PositionKeys.KeyTells` | src/chess/board.cpp:38-43 | The mixing step is injective, so two positions have different keys if they differ in one thing only: the man of one square or the side without an en-passant square, the rights, or the file of an en-passant square that can be taken, or whether there is one |
| `MoveEffects.RightsExact` | src/chess/board.cpp:430-480 | From a well-formed position a legal move loses a castling right exactly if it leaves or ends on the king's or the rook's own square |
| `MoveEffects.BoardExact` | src/chess/board.cpp:430-480 | Every square after a pseudo-legal move: the man moved or the one the promotion names, the castling rook, the squares left and the pawn passed empty, all others as before |
| `MoveEffects.LegalExact` | src/chess/board.cpp:407-418 | In a well-formed position a move is legal if and only if the rulebook allows it and no enemy man then bears on the mover's king |
| `Legality.LegalMoveKeepsWellFormed` | src/chess/board.cpp:407-496 | A legal move of a well-formed position leads to a well-formed position (one king a side, truthful castling rights and en-passant square, no pawns on the end ranks, side not to move not in check) and leaves the mover out of check |
| `Legality.KingNotTaken` | src/chess/board.cpp:145-405 | No pseudo-legal move takes a king that is not in check |
| `Legality.MenAfter` | src/chess/board.cpp:430-496 | A move lowers the number of men by one if it is a capture and leaves it alone otherwise |
| `Legality.RunKeepsWellFormed` | src/chess/board.cpp:407-496 | Every run of legal moves from a well-formed position, of any length, stays well formed, leaves the side that just moved out of check, and loses exactly one man per capture |
| `PerftSpec.LegalMovesExact` | src/chess/board.cpp:407-418 | The legal move list holds a move if and only if it is pseudo-legal and leaves the mover's king safe |
| `PerftSpec.StatsNodes` | src/chess/board.cpp:546-581 | perft_stats and perft count the same nodes at every depth |
| `PerftCount.PerftCountsRuns` | src/chess/board.cpp:533-544 | From a well-formed position perft of a depth is the number of different legal move sequences of that length: the sequences counted are all legal, all different, and none is missing |
| `PerftTallies.TalliesExact` | src/chess/board.cpp:546-581 | Each counter of perft_stats (captures, en passant, castles, promotions, checks, mates) is the number of different legal runs of the depth whose last move has the feature, the feature told by the men on the board and the replies |
| `InitialPosition.InitialFromText` | src/chess/fen.cpp:34-118 | Reading the text of the starting position gives the starting position, square by square |
| `InitialPosition.InitialWellFormed` | src/chess/fen.cpp:34-36 | The starting position is well formed |
| `Boards.Board.constructor` | src/chess/board.cpp:47-49 | A board standing at a given position |
| `Boards.Board.KingSquareOf` | src/chess/board.cpp:136-143 | The first square holding the king of a colour, or 64 |
| `Boards.Board.IsSquareAttacked` | src/chess/board.cpp:145-211 | The outward scan in place: true exactly when some man of the colour bears on the square |
| `Boards.Board.IsInCheck` | src/chess/board.cpp:213-216 | Whether the king of a colour is attacked |
| `Boards.Board.AddPawnMoves` | src/chess/board.cpp:218-263 | Appends exactly the specified pawn moves of a square, in order: pushes, captures, en passant, promotions |
| `Boards.Board.AddKnightMoves` | src/chess/board.cpp:265-287 | Appends the knight moves of a square |
| `Boards.Board.AddSlidingMoves` | src/chess/board.cpp:289-310 | Appends the moves along the given lines until something blocks them |
| `Boards.Board.AddKingMoves` | src/chess/board.cpp:312-368 | Appends king steps and the castling moves the board allows |
| `Boards.Board.PseudoLegal` | src/chess/board.cpp:370-405 | The list of pseudo-legal moves, in order |
| `Boards.Board.ComputeHash` | src/chess/board.cpp:612-641 | The position key of the board, mixed square by square |
| `Boards.Board.MakeMove` | src/chess/board.cpp:430-496 | Plays a move in place: the board becomes the position after it and the undo record holds what changed; a move whose source holds no man of the side to move is refused and changes nothing |
| `Boards.Board.UnmakeMove` | src/chess/board.cpp:498-531 | Puts back what an undo record holds |
| `Boards.Board.LegalMoves` | src/chess/board.cpp:407-418 | The list of legal moves, found by playing and taking back each; the board is as it was |
| `Boards.Board.FindLegalMove` | src/chess/board.cpp:420-428 | The first move of the legal list between two squares with the promotion asked for, or none exactly when there is none; the board is as it was |
| `Boards.Board.Perft` | src/chess/board.cpp:533-544 | Counts by recursive make and unmake; the result is perft of the position and the board is as it was |
| `Boards.Board.PerftStats` | src/chess/board.cpp:546-581 | The counters of every leaf, the board as it was |
| `San.SanInjective` | src/chess/san.cpp:49-107 | No two legal moves of a position have the same normalised notation: file, rank and square disambiguation, pawn pushes and captures, en passant, promotion and castling included |
| `San.SanRoundTrip` | src/chess/san.cpp:49-118 | For every position and legal move, reading the notation of the move returns that move; where trial moves restore the board, as in every well-formed position, the program computes just this |
| `San.ParseSanExact` | src/chess/san.cpp:109-118 | Reading a text gives a move if and only if the move is legal and the text is its notation up to normalisation; anything else is refused; where trial moves restore the board the program computes just this |
| `San.RivalsDiffer` | src/chess/san.cpp:65-87 | Two moves of like men to one square are written with different disambiguations |
| `Notation.MarksExact` | src/chess/san.cpp:99-106 | The notation ends in # if and only if the side to move afterwards is in check without a legal reply, and in + if and only if it is in check with one |
| `Notation.CastleTextExact` | src/chess/san.cpp:55-60 | Up to its mark the notation is O-O if and only if the king goes two files towards the h file, and O-O-O two towards the a file |
| `Notation.DistinguishesExact` | src/chess/san.cpp:65-87 | The origin written is the shortest that tells the man apart: none without a like move, the file if no like man comes from it, else the rank if no like man comes from it, else both |
| `Notation.PieceTextExact` | src/chess/san.cpp:61-98 | The notation of any other move of a man that is no pawn: its letter, that origin, x exactly at a capture, the target |
| `Notation.PawnTextExact` | src/chess/san.cpp:61-98 | The notation of a pawn move: its file and x exactly if it leaves its file, the target, = and the letter of the man the move names exactly at a promotion |
| `Notation.AnnotatedReads` | src/chess/san.cpp:30-45 | A legal move is read whatever marks of check and comment follow its notation |
| `Notation.NotedReads` | src/chess/san.cpp:30-45 | It is read with an en-passant note behind it |
| `Notation.ZerosRead` | src/chess/san.cpp:30-45 | Castling written with zeros is castling |
| `SanText.NormalizeText` | src/chess/san.cpp:30-45 | The loop that squeezes and trims a move text computes the normal form |
| `SanText.Disambiguate` | src/chess/san.cpp:65-87 | One scan over the legal moves sets the conflict flags and gives the disambiguation of the specification; the board is unchanged |
| `SanText.Write` | src/chess/san.cpp:49-107 | Writes a move with its check or mate mark by playing it on the passed board and taking it back; the board is unchanged, and a move with no man on its source is refused |
| `SanText.Parse` | src/chess/san.cpp:109-118 | The first legal move whose notation matches; the board is unchanged |
| `Text.NatRoundTrip` | src/chess/fen.cpp:23-30 | The decimal text of a number reads back as that number |
| `Text.ReadWords` | src/chess/fen.cpp:14-21 | The splitting loop gives the words of a text |
| `Fen.FenRoundTrip` | src/chess/fen.cpp:38-159 | Reading the written text of any position with both kings, 16-bit clocks and a positive move number restores its squares, side, rights, en-passant square and clocks (its history starts anew, as in the program) |
| `Fen.BoardReadsBack` | src/chess/fen.cpp:44-72 | The placement field, run-length rows included, reads back every square |
| `Fen.FenIdempotent` | src/chess/fen.cpp:38-159 | For every accepted text the position read from the rewritten text is the one read from the text itself |
| `FenGrammar.PlaceExact` | src/chess/fen.cpp:44-72 | The rows read are exactly those the text says: ranks from the eighth, a letter for each man, a digit for so many empty squares, eight files a rank |
| `FenGrammar.FenExact` | src/chess/fen.cpp:38-118 | A text is read as a position if and only if its six words tell it, field by field, with a king of each colour and a positive move number; its history is its key alone |
| `FenShortest.FenTextShortest` | src/chess/fen.cpp:120-159 | The text written for a position is a shortest one: no text that is read as the position is shorter, so empty squares are counted in one digit and no number has leading zeros |
| `FenShortest.RightsInOrder` | src/chess/fen.cpp:141-152 | The castling letters stand in the order K, Q, k, q |
| `FenText.PlaceMen` | src/chess/fen.cpp:44-72 | The character loop over the placement field fills the array as the grammar says, or reports its first fault |
| `FenText.ReadRights` | src/chess/fen.cpp:82-102 | The loop over the castling field |
| `FenText.ReadFen` | src/chess/fen.cpp:38-118 | Reading a text into a board: the position of the grammar, or its first fault |
| `FenText.WriteFen` | src/chess/fen.cpp:120-159 | Writing a board gives the text of its position, empty runs counted row by row |
| `PgnRoundTrip.ParsedGameRoundTrip` | src/chess/pgn.cpp:105-224 | For every text that parses and whose Result tag is empty or a result token, the canonical text parses again to the same moves, notation, positions and identity, and is its own canonical text; of a FEN tag whose en-passant square is occupied this is the specification, which the program's move list does not follow |
| `PgnRoundTrip.KeptTags` | src/chess/pgn.cpp:107-207 | Reading a written tag section, before any moves, gives every canonical key its value back and stops where the moves start |
| `PgnTags.TagsExact` | src/chess/pgn.cpp:107-131 | A tag section is read if and only if it is put together from tags in brackets, white space before each, and says of each key the value of the first tag that names it, between the first quote behind the key and the last one |
| `PgnRoundTrip.MovesReplay` | src/chess/pgn.cpp:133-156 | The words of the written moves, replayed from the start position, are the recorded plies |
| `PgnRoundTrip.SanToken` | src/chess/pgn.cpp:56-72 | The notation of a legal move is one token, never taken for a result or a move number |
| `PgnMainline.StripExact` | src/chess/pgn.cpp:16-54 | A text is stripped to a main line if and only if it is made of plain characters, comments and balanced variations, and that main line is its plain characters with a blank for each line comment |
| `PgnMainline.UnterminatedExact` | src/chess/pgn.cpp:47-52 | A text is refused as unterminated if and only if it is refused but can be completed by writing on; an unbalanced one never can |
| `PgnNumbers.NumbersTell` | src/chess/pgn.cpp:207-222 | The text written numbers every move by the full move number of its own position, a first Black move with three dots |
| `PgnNumbers.ResultStands` | src/chess/pgn.cpp:221-223 | The text ends in the result of its tag, an asterisk if that is missing or empty |
| `PgnNumbers.DecorationsIgnored` | src/chess/pgn.cpp:133-156 | Move numbers, apart or attached, annotation marks and whatever follows a result leave the moves played as they are |
| `PgnNumbers.PlayedExact` | src/chess/pgn.cpp:133-156 | Words of moves are played as the plies exactly if they name, one by one up to normalisation, the moves of a run of legal moves from the position, and are refused as illegal otherwise |
| `PgnIdentity.IdentityTells` | src/chess/pgn.cpp:185-194 | Games with one identity text have the six tags and the moves in common, if no tag holds a bar |
| `PgnIdentity.HashKnown` | src/chess/pgn.cpp:74-82 | The hash of the one-letter text a is the one published for 64-bit FNV-1a, from the offset basis the program starts with |
| `PgnText.StripNonMainline` | src/chess/pgn.cpp:16-54 | The character loop drops comments and variations as the specification does, unbalanced text refused |
| `PgnText.ReadTagSection` | src/chess/pgn.cpp:107-131 | The tag section: the first value of each key, where it ends, or its fault |
| `PgnText.PlayToken` | src/chess/pgn.cpp:136-152 | One move token played on the board: the ply it makes, or an illegal move |
| `PgnText.PlayLine` | src/chess/pgn.cpp:133-156 | The token loop plays the main line on the board up to a result |
| `PgnText.ReadPgn` | src/chess/pgn.cpp:105-183 | A whole game read from its text, or its first fault |
| `PgnText.WriteMoves` | src/chess/pgn.cpp:208-222 | The loop that numbers and writes the moves |
| `PgnText.WritePgn` | src/chess/pgn.cpp:196-224 | The canonical text of a game |
| `Bytes.LittleEndianReads` | src/storage/event_log.cpp:60-78 | A number written in so many little-endian bytes reads back, if it fits |
| `Bytes.LittleEndianWrites` | src/storage/event_log.cpp:60-78 | Any bytes are the little-endian writing of the number they read as |
| `Bytes.AppendLittleEndian` | src/storage/event_log.cpp:60-66 | The writer's loop appends the little-endian bytes |
| `Bytes.ReadLittleEndian` | src/storage/event_log.cpp:68-78 | The reader's loop gives their value |
| `Crc32.ChecksumDetects` | src/storage/event_log.cpp:133-144 | Changing any one byte of any data changes its checksum: every step of the reflected CRC-32 (IEEE 802.3 section 3.2.9) is injective |
| `CrcDivision.ChecksumIsRemainder` | src/storage/event_log.cpp:133-144 | The checksum is the complement of the mirrored remainder of dividing the message by the generator polynomial of IEEE 802.3 (section 3.2.9), each byte sent lowest bit first |
| `Crc32.ComputeChecksum` | src/storage/event_log.cpp:133-144 | The masked-shift loop computes the checksum |
| `Records.SerializedInspects` | src/storage/event_log.cpp:146-164 | A written record, whatever follows it, is found whole with every field as written |
| `RecordLayout.LayoutExact` | src/storage/event_log.cpp:146-164 | Bytes are the record of an event if and only if they are laid out as one: the mark PCTE, then each field at its offset, lowest byte first, the length of the whole, the payload, and the checksum of all before it |
| `RecordLayout.FaultsExact` | src/storage/event_log.cpp:227-288 | What bytes that are no record are told as, by mark, lengths, sum and schema at their offsets, and where the search goes on: at the next mark, or behind the bytes claimed |
| `ReplayProofs.SerializedReplays` | src/storage/event_log.cpp:227-288 | Replaying concatenated records returns exactly their events, intact |
| `ReplayProofs.TornReplay` | src/storage/event_log.cpp:227-297 | Completed records followed by one cut at any byte: exactly the completed events, no corruption, a torn tail, and a valid prefix that ends where the torn record starts |
| `ReplayProofs.WholeCanonical` | src/storage/event_log.cpp:243-285 | An accepted record is byte for byte the serialisation of the event read from it |
| `ReplayProofs.ReplayCanonical` | src/storage/event_log.cpp:227-288 | For every byte string whatsoever: the events read before the first fault, written again, are exactly the first valid_prefix_bytes bytes |
| `ReplayProofs.IntactExactly` | src/storage/event_log.cpp:227-288 | A byte string replays without fault if and only if it is a sequence of written records |
| `ReplayProofs.DamageContained` | src/storage/event_log.cpp:227-288 | Changing any one byte of one record outside the magic and the two lengths: exactly one corruption, reported at that record, and every other event returned |
| `Appends.AppendReplays` | src/storage/event_log.cpp:227-288 | Behind every byte string that is not torn, damaged or not, an appended record is read after all that was read before, and nothing is torn or more damaged than it was |
| `Appends.AppendsReplay` | src/storage/event_log.cpp:227-288 | So are any number of appended records |
| `Appends.AppendSurvives` | src/storage/event_log.cpp:227-288 | For every byte string: the next replay reads an appended record, after all it read before, if and only if no part of a torn tail has a header that, read on into the record, claims its bytes, or what it then reads is that very record |
| `Appends.LongClaims` | src/storage/event_log.cpp:241-259 | A record torn behind its header always claims what is appended |
| `Appends.TornAppendLost` | src/storage/event_log.cpp:255-297 | A damaged record, one torn behind its header, and a record appended: the log stays torn and damaged, and replays to nothing before and after |
| `EventLogs.SearchMagic` | src/storage/event_log.cpp:96-110 | The first place at or after an offset where the magic stands, or the end |
| `EventLogs.ReplayBytes` | src/storage/event_log.cpp:227-288 | The replay loop over an offset computes the replay of the bytes, and ends on every input |
| `EventLogs.WriteRecord` | src/storage/event_log.cpp:146-164 | Writes a record field by field; an oversized payload is refused |
| `EventLogs.EventLog.constructor` | src/storage/event_log.cpp:114-131 | Opening a log: the next id is one past the largest replayed |
| `EventLogs.EventLog.Append` | src/storage/event_log.cpp:166-215 | Appends the record of one event under the next id and advances it; an oversized payload is refused and changes nothing |
| `EventLogs.EventLog.RecoverTrailingRecord` | src/storage/event_log.cpp:290-297 | Cuts a torn tail off an otherwise intact log, and leaves any other log alone |
| `EventLogs.EventLog.Compact` | src/storage/event_log.cpp:299-449 | Rewrites an intact log as what the reverse scan keeps, upgraded, plus its markers under fresh ids; an invalid log or an event too large is refused and changes nothing |
| `EventLogs.MarkersStand` | src/storage/event_log.cpp:383-399 | Behind what compaction keeps, all upgraded to the current schema, stands its own record, and before that one of the migration if and only if some event was of an older schema |
| `EventLogs.WriteAll` | src/storage/event_log.cpp:411-421 | The loop that upgrades and writes the retained events |
| `Crashes.SoundReplays` | src/storage/event_log.cpp:227-297 | In every reachable state the log replays to exactly the completed records without corruption, is torn only while no process runs, and recovery cuts it back to exactly those records |
| `Crashes.StepKeepsSound` | src/storage/event_log.cpp:114-445 | Appending, compacting, tearing an append at any byte, dying and reopening each keep that |
| `Crashes.RunKeepsLog` | src/storage/event_log.cpp:114-445 | Over every run of those steps the completed records survive, recovery restores exactly them, retained ids increase strictly, and the ids issued over the whole run are never reused |
| `Crashes.IntactStarts` | src/storage/event_log.cpp:114-131 | A new log, and any intact log with increasing ids, is a state the runs may start from |
| `Agreement.AgreeExactly` | src/app/repository.cpp:859-977 | Two projections agree if and only if they are equal but for a shallow analysis under a full one |
| `Agreement.ApplyAgree` | src/app/repository.cpp:859-977 | Folding the same event into two projections keeps whatever they agree on: no event reads what a dropped event may have changed |
| `Agreement.OverwriteFixes` | src/app/repository.cpp:859-977 | After an event that overwrites a cell the projections agree there, whatever they held before |
| `Agreement.KeepsDifference` | src/app/repository.cpp:859-977 | An event that does not overwrite a cell leaves the projections there as far apart as they were |
| `Agreement.ApplyTouches` | src/app/repository.cpp:859-977 | An event of a kind and key the scan tracks changes nothing outside the cells it overwrites; one that does not decode changes nothing at all |
| `FoldMeaning.JobKept` | src/app/repository.cpp:902-904 | In the fold of any log a game's job has the status of its last job event |
| `FoldMeaning.CompletionKept` | src/app/repository.cpp:943-946 | In the fold of any log a resource was completed when its last completion event says, and is recommended exactly if some event recommends it |
| `FoldMeaning.BatchKept` | src/app/repository.cpp:921-942 | In the fold of any log a batch is that of its last event |
| `FoldMeaning.MonthKept` | src/app/repository.cpp:966-977 | In the fold of any log a month's checkpoint is its last one |
| `FoldMeaning.VariationKept` | src/app/repository.cpp:947-958 | In the fold of any log a variation is there exactly if it was saved and not deleted since, as saved last |
| `FoldMeaning.KeptOnce` | src/app/repository.cpp:859-977 | In the fold of any log profile, identity, synchronisation state and pause flag are those of their last events that carry one, or the initial ones |
| `FoldMeaning.ReviewsKept` | src/app/repository.cpp:859-977 | In the fold of any log all reviews stay, in the order of their events |
| `FoldMeaning.ArchiveKept` | src/app/repository.cpp:859-977 | In the fold of any log of each game the archive has the entry that came first |
| `FoldMeaning.GameKept` | src/app/repository.cpp:865-901 | In the fold of any log a game is as imported last, with the full analysis that came last after that, else the shallow one |
| `FoldMeaning.DrillKept` | src/app/repository.cpp:859-945 | In the fold of any log a drill is as created last, with the attempts since and the hint level and start of its session |
| `Compaction.DroppedIrrelevant` | src/storage/event_log.cpp:322-381 | Leaving out an event the scan drops shows, once the later events are folded in, at most in the cells it is the last to overwrite |
| `Compaction.DroppedExact` | src/storage/event_log.cpp:322-381 | It shows nowhere if and only if the event left each of those cells as it was |
| `Compaction.CompactAgrees` | src/storage/event_log.cpp:299-400 | For every log, undecodable events included, and every start projection, folding the compacted log agrees with folding the log on everything but the cells whose last overwriting event is dropped |
| `Compaction.CompactionExact` | src/storage/event_log.cpp:299-400 | It agrees on everything if and only if every dropped event left the cells it is the last to overwrite as it found them: for every log and every start, whatever of it still decodes |
| `Compaction.CompleteLosesNothing` | src/storage/event_log.cpp:322-381 | A cell is lost only to a later event that names it without writing it: a batch state without the flag, a session without its start, or an event whose kind and key are read but whose body does not decode |
| `Compaction.CompactionPreserves` | src/storage/event_log.cpp:299-400 | For every log without such events, as the program writes them, compaction preserves the whole projection from any start |
| `Compaction.CompactionForgetsPause` | src/storage/event_log.cpp:348-350 | A two-event log, its second batch-state event without the flag, whose compaction forgets a pause |
| `Compaction.CompactionForgetsProfile` | src/storage/event_log.cpp:354-356 | A log whose compaction forgets any profile at all: one that does not decode comes after it |
| `Compaction.CompactionForgetsAnalysis` | src/storage/event_log.cpp:325-333 | A log whose compaction forgets a shallow analysis for a full one that does not decode |
| `CompactionShape.OutdatesExact` | src/storage/event_log.cpp:322-381 | The scan drops an event for a later one if and only if the two are of one kind and key as told by a list of kinds, or the earlier is a shallow and the later a full analysis of one game |
| `CompactionShape.KeptExact` | src/storage/event_log.cpp:317-372 | An event is in the compacted log if and only if it stands somewhere in the log, is no compaction record, and no later event there outdates it: nothing else is gone |
| `CompactionShape.NoneOutdated` | src/storage/event_log.cpp:317-372 | In the compacted log no event outdates an earlier one, and no earlier compaction is recorded |
| `CompactionShape.OneOfEach` | src/storage/event_log.cpp:317-372 | Two different places of the compacted log hold no two job states or shallow analyses of a game, no shallow one before a full one of it, no two completions, sessions, checkpoints or savings of one key, and no two markers, batch states, migrations, profiles, identities or synchronisation states |
| `RetainScan.RetainedIsCompact` | src/storage/event_log.cpp:322-383 | The records the reverse scan keeps hold exactly the compaction of the events |
| `RetainScan.NotingExact` | src/storage/event_log.cpp:322-378 | After noting an event the key sets make redundant exactly what they did before plus what the event supersedes |
| `RetainScan.Visit` | src/storage/event_log.cpp:322-381 | One turn of the scan: by kind and key alone, body unread, it keeps an event exactly when no later one supersedes it and updates the key sets; an event whose key cannot be read is kept and notes nothing |
| `RetainScan.RetainReverse` | src/storage/event_log.cpp:322-383 | The reverse loop and the reversal give the retained records in order |
| `Snapshots.SelectNewest` | src/app/repository.cpp:709-858 | In any directory order the choice is an authorised file, and no authorised file has a later watermark, nor the same one with a later marker |
| `Snapshots.OthersIgnored` | src/app/repository.cpp:727-858 | Files that are no snapshot of version 1 or 2 under a bare name recorded by an event after their watermark make no difference to the choice |
| `Snapshots.CompactSuffix` | src/app/repository.cpp:859-864 | Compaction and the filter for events after a watermark commute |
| `Snapshots.StartupAgrees` | src/app/repository.cpp:699-980 | Start-up reaches the projection of folding every event, for any listing of files each unauthorised or taken of the log, in any order |
| `SnapshotRuns.NewSnapshotGood` | src/app/repository.cpp:1653-1726 | A snapshot of a projection that agrees with the log stands for the log up to its watermark |
| `SnapshotRuns.StepKeepsSound` | src/app/repository.cpp:1653-1737 | Appending, compacting a log that loses nothing by it and taking snapshots each keep every authorised snapshot file usable |
| `SnapshotRuns.CompactingExact` | src/app/repository.cpp:1728-1737 | Compaction keeps the projection and every snapshot that stays authorised usable if and only if nothing is lost from the whole log nor from what is replayed on top of such a snapshot |
| `SnapshotRuns.ProgramRunIsRun` | src/app/repository.cpp:1653-1737 | When every event is complete, as those the program writes are, no compaction over any run loses anything |
| `SnapshotRuns.RunStartupAgrees` | src/app/repository.cpp:699-980 | After any run of appends, lossless compactions and snapshots, start-up over any listing of the directory reaches the projection of folding every event |
| `Decodings.RecoveredTorn` | src/storage/event_log.cpp:290-297 | Recovery leaves a log torn if and only if it is damaged as well, and loses no record |
| `Decodings.AppendDecodes` | src/storage/event_log.cpp:166-215 | Appending a record to any log that is not torn, damaged or not, appends to the typed log the entry it decodes to, and keeps it as intact as it was |
| `Decodings.CompactDecodes` | src/storage/event_log.cpp:299-449 | The file compaction writes holds the compacted typed log and compaction's own events |
| `StoreRuns.StepRefines` | src/app/repository.cpp:1653-1737 | Every step of the store, on bytes and snapshot files, is one step of the typed log and its files, or none: a snapshot whose marker is torn is a file nothing authorises |
| `StoreRuns.RunRefines` | src/storage/event_log.cpp:114-445 | Every run of the store, with appends and markers torn at any byte, deaths, reopenings, compactions and snapshots, is a run of the typed log and its files |
| `StoreRuns.CrashedRunStartsUp` | src/app/repository.cpp:694-980 | After any such run from a log of complete events, start-up from the bytes and files left reaches the projection of all events left |
| `Decodings.OpenedId` | src/storage/event_log.cpp:114-131 | A log opened on such a file gives out the id after the last entry |
| `Counters.SavedBelow` | src/app/repository.cpp:947-958 | Seeing a saved variation keeps the counter above every numbered variation alive |
| `Counters.DrillBelow` | src/app/repository.cpp:891-893 | A drill put into the projection keeps the attempt counter above every attempt if and only if its own attempts are below it |
| `Effects.AppliedAgrees` | src/app/repository.cpp:859-1066 | An event applied to the memory stands for the event appended to the log |
| `Repositories.Repository.constructor` | src/app/repository.cpp:694-980 | Opens on the bytes of any log, torn ones included, and a directory listing: the memory is what start-up computes of the events read, the state is valid, the counters of batches, variations and reviews exceed every live number, and that of attempts does if no drill of the log was created with attempts |
| `Repositories.Repository.RecordJobState` | src/app/repository.cpp:1739-1746 | Appends the status and keeps it as the last of its game; the memory still agrees with the events read and appended |
| `Repositories.Repository.SetBackgroundPaused` | src/app/repository.cpp:1760-1767 | Appends and keeps the pause flag; the memory still agrees with the events read and appended |
| `Repositories.Repository.CompleteResource` | src/app/repository.cpp:1633-1651 | A resource known to the catalogue is marked complete, another refused; the memory still agrees with the events read and appended |
| `Repositories.Repository.SaveShallowAnalysis` | src/app/repository.cpp:1201-1216 | A shallow analysis of a known game, ignored under a full one; the memory still agrees with the events read and appended |
| `Repositories.Repository.AddValidatedDrill` | src/app/repository.cpp:1226-1249 | Adds a drill, whose solutions are legal, once; attempt numbers stay fresh if and only if the attempts it comes with are below the counter; the memory still agrees with the events read and appended |
| `Repositories.Repository.BeginDrillSession` | src/app/repository.cpp:1339-1357 | Starts the session of a known drill unless one runs; the memory still agrees with the events read and appended |
| `Repositories.Repository.AdvanceHint` | src/app/repository.cpp:1359-1380 | One more hint, up to what the failed attempts of the session allow; the memory still agrees with the events read and appended |
| `Repositories.Repository.RecordAttempt` | src/app/repository.cpp:1279-1337 | Judges an attempt, appends it under the next number, which no stored attempt has while numbers are fresh, and ends the session when it is correct; the memory still agrees with the events read and appended |
| `Repositories.Repository.CreateBatch` | src/app/repository.cpp:1774-1793 | A batch under a fresh number; the memory still agrees with the events read and appended |
| `Repositories.Repository.SaveChessComProfile` | src/app/repository.cpp:1837-1870 | Keeps a changed profile, validated before; an unchanged one appends nothing; the memory still agrees with the events read and appended |
| `Repositories.Repository.SavePlayerIdentity` | src/app/repository.cpp:1877-1905 | Keeps a decided identity, its fields validated before, whose name is a player of the game; the memory still agrees with the events read and appended |
| `Repositories.Repository.CheckpointMonth` | src/app/repository.cpp:2010-2029 | Keeps a month checkpoint, validated before, no older than the stored one; the memory still agrees with the events read and appended |
| `Repositories.Repository.SaveSyncState` | src/app/repository.cpp:2060-2081 | Keeps a synchronisation state, validated before, no older than the stored one; the memory still agrees with the events read and appended |
| `Repositories.Repository.IndexArchiveChunk` | src/app/repository.cpp:1912-1950 | Indexes the games of a chunk not indexed yet, the first entry of each; the memory still agrees with the events read and appended |
| `Repositories.Repository.CreateVariation` | src/app/repository.cpp:2088-2114 | A variation from a ply of a known game under a fresh identifier; the memory still agrees with the events read and appended |
| `Repositories.Repository.ExtendVariation` | src/app/repository.cpp:2116-2160 | Follows or adds a child of a node by the given legal move, or refuses without one; the memory still agrees with the events read and appended |
| `Repositories.Repository.SetVariationCursor` | src/app/repository.cpp:2162-2180 | Moves the cursor to a node of the variation; the memory still agrees with the events read and appended |
| `Repositories.Repository.DeleteVariation` | src/app/repository.cpp:2201-2213 | Deletes a known variation and says whether it did; the memory still agrees with the events read and appended |
| `Repositories.Repository.RecordReviewAttempt` | src/app/repository.cpp:2215-2248 | A retry of an analysed move under a fresh number; the memory still agrees with the events read and appended |
| `Repositories.Repository.RecommendResources` | src/app/repository.cpp:1609-1631 | Records the recommendations not made before; the memory still agrees with the events read and appended |
| `Repositories.Repository.AddGame` | src/app/repository.cpp:1031-1066 | Adds a game once: two events, the memory, then the ratings in its tags; the memory still agrees with the events read and appended |
| `Repositories.Repository.SaveAnalysis` | src/app/repository.cpp:1068-1199 | A full analysis of a known game: notes, the analysis, and a drill for each mistake with a verified solution; the memory still agrees with the events read and appended |
| `Repositories.Repository.CreateSnapshot` | src/app/repository.cpp:1653-1726 | Writes and authorises a snapshot of the projection; refused unless the log is intact and the projection has followed it to its end; the memory still agrees with the events read and appended |
| `Repositories.Repository.CompactStorage` | src/app/repository.cpp:1728-1737 | Compacts the log and follows the events compaction added; memory, events and snapshots still agree if and only if nothing was lost, as nothing is from a log of complete events |
| `Repositories.Repository.Note` | src/app/repository.cpp:982-988 | The projection follows an event that comes next, and is no longer contiguous after any other |
| `Repositories.Repository.ApplyEvent` | src/app/repository.cpp:859-977 | One turn of the replay computes the fold of one event; attempt numbers stay fresh unless it creates a drill with attempts beyond the counter |
| `Repositories.Restart` | src/app/repository.cpp:694-980 | If the log was not torn when it was opened, a restart between operations loses nothing: a repository opened on the bytes another left, damaged or not, over any listing of its snapshots, has an agreeing projection |
| `Repositories.WrittenSince` | src/app/repository.cpp:859-977 | The events a repository has read and appended stay those of the bytes it opened and of the records appended since |
| `Repositories.TornPauseForgotten` | src/app/repository.cpp:1760-1767 | On a log torn behind a damaged record: a pause is set, appended and kept in memory, and the next start-up does not have it |
| `Repositories.AttemptNumberReused` | src/app/repository.cpp:1226-1337 | In any repository: a drill that comes with the next attempt number makes the next attempt use that number again |
| `RepositoryMeaning.HintsEarned` | src/training/training.cpp:81-90 | A session earns one hint for each of its first three failed attempts, and none before it starts; a hint taken is the next one up to that |
| `RepositoryMeaning.RetriesAre` | src/app/repository.cpp:1279-1338 | The retries counted are the failed attempts after the last correct one |
| `RepositoryMeaning.AttemptJudged` | src/app/repository.cpp:1279-1338 | An attempt is correct if and only if it plays one of the solutions; its time runs from the start of the session where that is known and not later |
| `RepositoryMeaning.RootIsTree` | src/app/repository.cpp:2088-2114 | A new variation is a tree with the root alone |
| `RepositoryMeaning.ExtendedIsTree` | src/app/repository.cpp:2116-2160 | Playing a move keeps the nodes a tree and every node in it; the cursor is on the child that plays the move, which is new exactly if there was none |
| `RepositoryMeaning.UnindexedExact` | src/app/repository.cpp:1913-1951 | Of a chunk the entries indexed are the first of each game the archive does not have, one per game |
| `RepositoryMeaning.NewDrillsExact` | src/app/repository.cpp:1068-1199 | The drills an analysis adds are, for each identifier not taken, that of the first mistake with solutions under it |
| `RepositoryMeaning.NewDrillsApart` | src/app/repository.cpp:1068-1199 | They have identifiers of their own, none taken before |
| `RepositoryMeaning.AnalysisRecorded` | src/app/repository.cpp:1068-1199 | Of a full analysis exactly these are recorded: every move assessed; of each mistake what it is, its class and its explanation; the analysis; and the new drills |
| `RepositoryMeaning.GameRecorded` | src/app/repository.cpp:1028-1066 | Of a new game exactly these are recorded: first the game, its length, and the rating of each player whose tag gives one |
| `RepositoryMeaning.RecommendedExact` | src/app/repository.cpp:1609-1631 | A resource is recorded as recommended if and only if it is given and was not recommended before, and once |
| `RepositoryMeaning.ReviewJudged` | src/app/repository.cpp:2215-2248 | A retried move is accepted if and only if it is the best move or one of its alternatives |
| `Repositories.ChooseSnapshot` | src/app/repository.cpp:727-858 | The directory loop chooses as the specification does |
| `PoolProofs.PoolSafety` | src/engine/pool.cpp:47-203 | Over every interleaving: no request is resolved twice; every accepted request is either resolved or in exactly one place; active plus queued work stays within max_pending, historical work within max(1, workers - 1); and no request has run more than retry_limit + 1 times |
| `PoolProofs.TakeOrder` | src/engine/pool.cpp:77-105 | A worker takes from the front of the highest class waiting, and historical work only when nothing else waits and below its limit |
| `PoolProofs.StepKeepsInvariant` | src/engine/pool.cpp:47-203 | Every step of a caller, a worker or the destructor keeps the pool's invariant |
| `PoolProofs.InternalDecreases` | src/engine/pool.cpp:77-157 | Each of the pool's own steps uses up some of one measure: retries are bounded |
| `PoolProofs.InternalRunsEnd` | src/engine/pool.cpp:77-157 | Without new requests the pool takes at most that many steps |
| `PoolProofs.Progress` | src/engine/pool.cpp:77-157 | While a request is unresolved some worker or the destructor can step: the pool is never stuck |
| `PoolProofs.QuiescentResolved` | src/engine/pool.cpp:47-203 | When the pool can take no step of its own, every accepted request has been resolved exactly once |
| `PoolOrder.FirstComeFirstServed` | src/engine/pool.cpp:84-111 | Over every run: of two requests of one class taken for the first time, the one taken earlier was accepted earlier |
| `PoolOrder.FailDecided` | src/engine/pool.cpp:142-165 | A failed run is tried again, at the front of its class with one more attempt, if and only if the pool is not stopping, the request is not cancelled and has retries left |
| `PoolOrder.CancelledNotRetried` | src/engine/pool.cpp:142-165 | Over every run: a request once cancelled is never tried again |
| `PoolOrder.CountersExact` | src/engine/pool.cpp:47-165 | Over every run the counters of accepted, rejected, completed, failed and retried requests are the numbers of steps at which a request is accepted, refused for want of room, succeeds, fails for good or is put back |
| `EnginePools.EnginePool.constructor` | src/engine/pool.cpp:36-45 | A pool with idle workers and empty queues, in its invariant |
| `EnginePools.EnginePool.Pending` | src/engine/pool.cpp:70-75 | Active work plus the length of every queue |
| `EnginePools.EnginePool.Analyze` | src/engine/pool.cpp:181-203 | Queues a request, or refuses it while stopping or at max_pending, as the machine's submission step; the invariant holds |
| `EnginePools.EnginePool.TakeWork` | src/engine/pool.cpp:77-105 | The scan over the classes is the machine's take step; a stopping pool hands out nothing; the invariant holds |
| `EnginePools.EnginePool.CountResult` | src/engine/pool.cpp:123-128 | Counts a result; the invariant holds |
| `EnginePools.EnginePool.FinishActive` | src/engine/pool.cpp:107-112 | Leaves the active counts; the invariant holds |
| `EnginePools.EnginePool.HandleFailure` | src/engine/pool.cpp:131-148 | A failed run goes back to the front of its queue while it may be retried, and is failed otherwise; the invariant holds |
| `EnginePools.EnginePool.Shutdown` | src/engine/pool.cpp:47-55 | Stops and empties the queues; the invariant holds |
| `EnginePools.EnginePool.AbandonNext` | src/engine/pool.cpp:54-63 | Fails one abandoned request; the invariant holds |
| `JobProofs.JobSafety` | src/app/job_manager.cpp:95-531 | Over every interleaving: a queued job has exactly one queued task and no body; a running job exactly one body and no task; complete and failed jobs neither; no game has two queued, running or complete jobs; and queued tasks never exceed max_queued plus workers |
| `JobProofs.StepKeepsInvariant` | src/app/job_manager.cpp:95-531 | Every region under the mutex keeps the invariant |
| `JobProofs.RunKeepsInvariant` | src/app/job_manager.cpp:95-531 | So does every run of them |
| `JobProofs.FailingExact` | src/app/job_manager.cpp:484-516 | Marking a job failed keeps the invariant if and only if none of its tasks is queued and no body of it executes |
| `JobProofs.LateFailureBreaks` | src/app/job_manager.cpp:443-456 | An error from recording the job's state after the quick task put the deep one back leaves a failed job with a task still queued |
| `JobProofs.LateExact` | src/app/job_manager.cpp:484-516 | Whatever the handler of such an error decides, and whatever happened in between, the job fits its tasks and bodies afterwards if and only if no body executes and none of its tasks is queued, or the job is cancelled |
| `JobProofs.LateQueuesTwice` | src/app/job_manager.cpp:490-508 | A quick historical task asked to stop by then: the handler queues a second task of the queued job |
| `JobProofs.LateLeavesComplete` | src/app/job_manager.cpp:484-516 | A job complete by then never stays so: it is cancelled if asked to stop, queued again if the task is put back, and failed exactly otherwise |
| `JobProofs.DeepTaskOvertakes` | src/app/job_manager.cpp:385-482 | Another worker can complete the job in between: it takes the deep task if that is next, and finishes it |
| `JobProofs.PromotionKeepsTasks` | src/app/job_manager.cpp:268-293 | Promotion loses no task and duplicates none: the job's tasks move to the higher class with nothing else about them changed |
| `JobProofs.TerminalKept` | src/app/job_manager.cpp:95-531 | A complete, failed or cancelled job keeps its status through every step, the handler of a late error apart |
| `JobProofs.RunKeepsTerminal` | src/app/job_manager.cpp:95-531 | Terminal statuses are never left, however long the run, the handler of a late error apart |
| `JobRetries.RetriesBounded` | src/app/job_manager.cpp:484-523 | Over every run: the bodies of one quick or deep task that end in an engine failure, stops and preemptions aside, number at most retryLimit + 1; the attempts of every queued task and executing body are the failures counted so far and within the limit |
| `JobRetries.FailureDecides` | src/app/job_manager.cpp:501-516 | Over every run: after such a failure the job has failed if and only if as many failures as the limit went before; otherwise its task is back in its queue with the attempt counted |
| `JobRetries.EndDecided` | src/app/job_manager.cpp:413-523 | Every other end of a body: after a stop request an error ends Cancelled; a preempted historical task returns at the class requested with its attempts; success completes the job or queues its deep task; other errors fail it |
| `JobRetries.StoppedGoesBack` | src/app/job_manager.cpp:501-516 | Over every run: a retried task goes back with a source already asked to stop if and only if it was asked and is not historical |
| `JobEffects.TakeExact` | src/app/job_manager.cpp:257-262 | An idle worker can take a task if and only if the manager is neither paused nor stopping and a task waits that its class may run |
| `JobEffects.TakeServes` | src/app/job_manager.cpp:304-318 | It takes the front task of the highest class that can be served; the task of a cancelled job is dropped, any other job is Running |
| `JobEffects.CancelAsks` | src/app/job_manager.cpp:179-200 | Cancelling ends a queued job Cancelled, asks a running one and the source of its body to stop, and leaves every other job as it was |
| `JobEffects.StopAsks` | src/app/job_manager.cpp:64-87 | Stopping asks every queued or running job and every active task to stop, after which no worker takes a task |
| `JobEffects.AskedKept` | src/app/job_manager.cpp:64-531 | A job asked to stop stays so through every step |
| `JobEffects.PromoteAsks` | src/app/job_manager.cpp:268-293 | A promotion leaves no task of the job in a lower class and stops its active task exactly if that runs in one |
| `JobEffects.StartServes` | src/app/job_manager.cpp:95-177 | If there is room, every game asked for then has an active job requested at that class or a higher one, new jobs are of those games in their order, and their quick tasks and then their deep ones wait behind all others; without room no job is new. Jobs that were there stay |
| `JobEffects.StartStops` | src/app/job_manager.cpp:268-302 | A request stops only active tasks of jobs it raises, or, on one worker with work above historical queued, the historical ones, and then all of those |
| `JobEffects.RunAsked` | src/app/job_manager.cpp:95-531 | Over every run active tasks are of jobs asked for, and every job asked for was given its number: the state such a request meets |
| `JobManagers.JobManager.constructor` | src/app/job_manager.cpp:51-62 | A manager with idle workers, in its invariant |
| `JobManagers.JobManager.PromoteJob` | src/app/job_manager.cpp:268-293 | The in-place scan over the queues is promotion as specified, its body asked to stop |
| `JobManagers.JobManager.FindActive` | src/app/job_manager.cpp:126-131 | The first job of a game that is queued, running or complete |
| `JobManagers.JobManager.StartJobs` | src/app/job_manager.cpp:95-177 | Starts or promotes the jobs of a request, or refuses it whole when the queue would overflow, erasing what it created; equal to the machine's step, the invariant kept |
| `JobManagers.JobManager.CancelJob` | src/app/job_manager.cpp:179-200 | Asks a job to stop; a queued one is cancelled at once, a terminal one is left alone; equal to the machine's step, the invariant kept |
| `JobManagers.JobManager.SetPause` | src/app/job_manager.cpp:219-234 | Pauses or resumes; equal to the machine's step, the invariant kept |
| `JobManagers.JobManager.TakeTask` | src/app/job_manager.cpp:385-405 | Takes the front task of the first class allowed; a task of a cancelled job is dropped; equal to the machine's step, the invariant kept |
| `JobManagers.JobManager.FinishBody` | src/app/job_manager.cpp:413-524 | What becomes of a job whose body ended, and the task that goes back to a queue; equal to the machine's step, the invariant kept |
| `JobManagers.JobManager.FinishTask` | src/app/job_manager.cpp:320-327 | Leaves the active counts; equal to the machine's step, the invariant kept |
| `Observations.StageKeepsOrder` | src/analysis/browser_observation.cpp:369-457 | Every request keeps each run in order: accepted sequences are exactly 0 to n-1, each observation valid and of its run, a final run complete |
| `Observations.StageKeepsRuns` | src/analysis/browser_observation.cpp:376-457 | No request loses an accepted observation, and none changes a final run |
| `Observations.FinalStays` | src/analysis/browser_observation.cpp:376-457 | Over any run of requests, a run once final is the same ever after |
| `Ledgers.RunKeyInjective` | src/analysis/browser_observation.cpp:105-110 | Different owners or runs never share a ledger key, whatever characters their names hold |
| `Ledgers.EmplacedOrdered` | src/analysis/browser_observation.cpp:429 | Emplacing a new observation keeps a run ordered by ply and sequence |
| `Ledgers.BrowserObservationLedger.constructor` | src/analysis/browser_observation.cpp:369-374 | An empty ledger with its two bounds |
| `Ledgers.BrowserObservationLedger.Begin` | src/analysis/browser_observation.cpp:376-397 | Registers a run or continues one with the same game and profile and a compatible length; refuses a changed context or a full ledger |
| `Ledgers.BrowserObservationLedger.Submit` | src/analysis/browser_observation.cpp:399-432 | The checks in order on an observation, then its place in the run's ordered map and the next sequence; every refusal leaves the ledger as it was |
| `Ledgers.BrowserObservationLedger.Finalize` | src/analysis/browser_observation.cpp:434-457 | Freezes a complete run and returns its observations in map order |
| `HostedStores.HostedBrowserObservationStore.constructor` | src/app/hosted_browser_observations.cpp:177-178 | Empty tables |
| `HostedStores.HostedBrowserObservationStore.Begin` | src/app/hosted_browser_observations.cpp:182-224 | One transaction on the runs table; the owner, the game and the table's checks may refuse it, leaving both tables as they were |
| `HostedStores.HostedBrowserObservationStore.Submit` | src/app/hosted_browser_observations.cpp:226-282 | One transaction: the insert and the advance of the run together or neither, a failed check rolling the insert back |
| `HostedStores.HostedBrowserObservationStore.Finalize` | src/app/hosted_browser_observations.cpp:284-340 | Selects the run's rows by sequence, checks them and freezes the run |
| `StagingOwners.OwnersApart` | src/app/hosted_browser_observations.cpp:182-340 | Tables that agree on an owner's rows answer that owner alike and agree on them afterwards, and the rows of all other owners stay |
| `StagingOwners.StrangersRefused` | src/app/hosted_browser_observations.cpp:182-340 | Whoever is no owner, or begins a run of a game of somebody else, is refused and changes nothing |
| `ObservationJson.ObservationReads` | src/analysis/browser_observation.cpp:165-245 | An observation is read back from its JSON object, whatever its texts and lines |
| `ObservationJson.EngineReads` | src/analysis/browser_observation.cpp:165-204 | The parts of the engine stand each under its own name |
| `ObservationJson.SearchReads` | src/analysis/browser_observation.cpp:165-204 | So do the parts of the search |
| `ObservationJson.LineReads` | src/analysis/browser_observation.cpp:165-204 | So do the parts of a line |
| `ObservationJson.OthersRead` | src/analysis/browser_observation.cpp:165-204 | So do the contract, run, game, position, profile, ply and sequence |
| `ObservationJson.TextReads` | src/analysis/browser_observation.cpp:165-245 | It is read back from its text through the parser |
| `ObservationJson.TextsTell` | src/app/hosted_browser_observations.cpp:253-256 | Comparing canonical texts decides exactly whether two observations are the same, which is how a duplicate is told from a conflict |
| `StagingAgreement.LedgerFollows` | src/analysis/browser_observation.cpp:376-457 | The ledger answers by the common rule if and only if neither of its bounds stands in the way, though it finds observations by ply and sequence and the rule by sequence |
| `StagingAgreement.HostedFollows` | src/app/hosted_browser_observations.cpp:182-340 | For every request of a known owner, to begin only runs of a game of theirs: the hosted store answers by the common rule if and only if the run that would accept has an expected count, and a run begun has names the rule takes |
| `StagingAgreement.StepAgrees` | src/app/hosted_browser_observations.cpp:182-340 | From any related states, ledger and hosted store give the same Accepted, Duplicate or refusal and the same bundle up to order, if and only if the request is not a new run or observation beyond the ledger's bounds, nor an observation accepted by a run with no expected count, nor a new run whose game or run name is no identifier but passes the hosted checks; and they stay related |
| `StagingAgreement.SpacedNameDiffers` | src/app/hosted_browser_observations.cpp:182-224 | A run named "run 1": the ledger refuses to begin it, whatever it holds, and the hosted store begins it |
| `StagingAgreement.RunsAgree` | src/app/hosted_browser_observations.cpp:182-340 | Over every run of such requests from the start: all answers agree if and only if none of the requests is of those kinds |
| `UncountedRuns.FirstValid` | src/analysis/browser_observation.cpp:247-297 | A concrete observation of the starting position passes every check of validation, its move legal |
| `UncountedRuns.UncountedRunDiffers` | db/migrations/0005_browser_observation_staging.sql:17-18 | For every valid first observation of a run begun without an expected count, the ledger accepts it and the tables' check makes the hosted store refuse it |
| `BrowserReviews.CountedExact` | src/analysis/browser_observation.cpp:308-345 | The assembly loop succeeds if and only if the bundle, taken in no order, is consistent: valid observations of one run and game, at different sequences and different positions of the game |
| `BrowserReviews.AssembledExact` | src/analysis/browser_observation.cpp:299-367 | A review is assembled if and only if the bundle is consistent, twice as long as the game and has every sequence from zero; it then holds each observation's result at its own position |
| `BrowserReviews.OrderIrrelevant` | src/analysis/browser_observation.cpp:299-367 | Any two orders of one bundle give the same review, or none |
| `BrowserReviews.CoverageNeverFails` | src/analysis/browser_observation.cpp:352-362 | The final coverage check cannot fail once the loop has accepted 2n observations: each took a position of its own |
| `ReviewResults.TokenExact` | src/analysis/browser_observation.cpp:48-79 | A token leads from a position exactly if it names a legal move, and to the position after that move |
| `ReviewResults.LineExact` | src/analysis/browser_observation.cpp:81-103 | A line plays out if and only if its tokens name a run of legal moves |
| `ReviewResults.ValidExact` | src/analysis/browser_observation.cpp:247-297 | An observation is valid if and only if its engine and profile are the known ones, every field is within its bound, and its best move starts its one line of legal moves from its position, or there is no legal move |
| `ReviewResults.ReviewReports` | src/analysis/browser_observation.cpp:124-137 | An assembled review holds before and after every move the search of the one observation of that ply and position, its best move and line legal there |
| `ReviewResults.IdentityTextNames` | src/chess/pgn.cpp:185-194 | The text of a legal move names its two squares, with a fifth letter exactly for promotions |
| `BrowserReviews.GatherResults` | src/analysis/browser_observation.cpp:308-345 | The loop with its checks in order computes the tally, or the first fault |
| `BrowserReviews.AssembleReview` | src/analysis/browser_observation.cpp:299-367 | The whole assembly, loop by loop |
| `StagedReviews.BundlesReviewAlike` | src/analysis/browser_observation.cpp:299-367 | The bundles of the ledger and the hosted store give one review |
| `StagedReviews.FinalRunReviewed` | src/analysis/browser_observation.cpp:299-367 | A final run of a game with two observations expected a ply is reviewed if and only if its observations are of different positions of the game: no other check of the assembly can stop it |
| `JsonRoundTrip.DumpParses` | src/common/json.cpp:18-326 | For every value with exact numbers, parsing its text gives it back if and only if it nests at most 64 deep; a deeper one is refused as too deep |
| `JsonRoundTrip.StringReads` | src/common/json.cpp:104-169 | Every string, of any bytes, is read back through its escapes (section 7 of RFC 8259), whatever follows it |
| `JsonRoundTrip.IntegerReads` | src/common/json.cpp:171-213 | Every integer up to 2^53 - 1 in magnitude, and minus zero, is read back from its text |
| `JsonRoundTrip.PlacedInOrder` | src/common/json.cpp:241-242 | Fields stay in the order of their keys, no key twice, when a new one is emplaced |
| `JsonRoundTrip.DumpInjective` | src/common/json.cpp:289-326 | Different values have different texts |
| `JsonShortest.DumpShortest` | src/common/json.cpp:251-326 | The text written for a value is a shortest one: no text that is read as the value, its numbers exact, is shorter |
| `JsonRoundTrip.ValueSound` | src/common/json.cpp:57-248 | Whatever the text, a parsed value keeps its keys in order and nests no deeper than 64 |
| `JsonRoundTrip.CanonicalFixed` | src/app/hosted_browser_observations.cpp:131-137 | The canonical text of any text that parses to integers written without fraction or exponent parses to the same value, so it is its own canonical text; texts such as 1.0 or 1e3, exact in the program, are numbers known by their text here and not covered |
| `JsonGrammar.ParseExact` | src/common/json.cpp:41-248 | A text is read as a value if and only if a derivation tree of the grammar, blanks around it, derives the text and says the value: strings by their bytes and escapes, numbers by their spelling and range, arrays item by item, objects by fields named once and put in the order of their keys, nested at most 64 deep |
| `JsonSpelling.NumberReads` | src/common/json.cpp:171-213 | Any spelling of a number is read whole: an exact integer if it is a plain one, its text otherwise, refused exactly if its digits shifted by its scale are out of range |
| `JsonSpelling.RangeScales` | src/common/json.cpp:205-211 | Whether a number is in range depends on its value, not on how point and exponent share it |
| `JsonSpelling.BlanksIgnored` | src/common/json.cpp:41-55 | Blanks before a value, an item, a key or a mark change nothing of what is read |
| `Utf8Escapes.SequenceReads` | src/common/json.cpp:91-102 | An independent decoder reads the bytes written for a code point back as it; they are 1, 2 or 3 by the bounds 0x7f and 0x7ff |
| `Utf8Escapes.SequenceUnique` | src/common/json.cpp:91-102 | They are the only shortest bytes it so reads |
| `Utf8Escapes.EscapeReadsCodepoint` | src/common/json.cpp:144-163 | Reading the escape of any code point below 0x10000, four digits in small or capital letters, gives bytes that decode to it |
| `Utf8Escapes.EscapeRefused` | src/common/json.cpp:144-160 | Four characters that are not all hexadecimal digits, or fewer, are refused |
| `Utf8Escapes.ShortEscapeReads` | src/common/json.cpp:118-166 | A letter after the backslash is read as the byte it names, any other is refused |
| `Utf8Escapes.EscapeShortest` | src/common/json.cpp:251-287 | The writer escapes a byte only where it must, by a letter where it has one: no text read as the byte is shorter |
| `JsonText.Parser.SkipSpace` | src/common/json.cpp:41-46 | Skips blanks |
| `JsonText.Parser.Consume` | src/common/json.cpp:48-55 | Skips blanks and takes one expected character |
| `JsonText.Parser.ParseString` | src/common/json.cpp:104-169 | The character loop with its escapes reads a string as the grammar says, or reports its first fault |
| `JsonText.Parser.ParseNumber` | src/common/json.cpp:171-213 | Scans a number part by part; out of range is refused |
| `JsonText.Parser.ParseArray` | src/common/json.cpp:215-227 | The item loop |
| `JsonText.Parser.ParseObject` | src/common/json.cpp:229-248 | The field loop; a repeated key is refused |
| `JsonText.Parser.ParseValue` | src/common/json.cpp:57-82 | A value as the grammar says, or its first fault; ends on every input |
| `JsonText.Parser.ParseDocument` | src/common/json.cpp:22-29 | A whole text as one value, trailing data refused |
| `JsonText.DumpString` | src/common/json.cpp:251-287 | The loop that escapes a string computes its quoted text |
| `JsonText.DumpValue` | src/common/json.cpp:289-326 | Writing a value, its items and fields in order, gives its text |

## Left out

- Widths of counters: perft counts, event ids, sequence numbers and statistics are unbounded integers; the 16-bit chess clocks and the 32-bit record lengths are modelled with their limits, and the log refuses ids near the end of 64 bits as a precondition.
- Hash collisions: nothing is claimed of the keys of positions that differ in more than one thing, nor of the hashes of different identity texts.
- Board.repetition_count and material: readers of the history and squares that nothing else here needs.
- Boards.Board.MakeMove: does not model an en-passant move whose captured square lies off the board, which no generated move is.
- PgnRoundTrip.ParsedGameRoundTrip: does not model the damage trial moves do to a board whose en-passant square is occupied, as a FEN tag may say; it is about the notation as specified.
- Boards.Board.LegalMoves: does not model boards that taking back a trial move does not restore (an en-passant square that is occupied, or no history); `Boards.Board.FindLegalMove`, `SanText.Disambiguate`, `SanText.Write` and `SanText.Parse` search on the same boards.
- Boards.Board.Perft: does not model positions that are not well formed, where takebacks deeper in the tree need not restore.
- Boards.Board.FindLegalMove: as `Boards.Board.LegalMoves`.
- Boards.Board.PerftStats: as `Boards.Board.Perft`.
- SanText.Disambiguate: as `Boards.Board.LegalMoves`.
- SanText.Write: as `Boards.Board.LegalMoves`, and moves that are not pseudo-legal.
- SanText.Parse: as `Boards.Board.LegalMoves`.
- PgnText.PlayToken: does not model start positions that are not well formed, which `from_fen` lets through: it checks only that both kings exist.
- PgnText.PlayLine: as `PgnText.PlayToken`.
- PgnText.ReadPgn: as `PgnText.PlayToken`, for the position of the FEN tag.
- A FEN whose en-passant square is occupied is validated for observations as if trial moves restored the board.
- Clock comments and the original text of a PGN game: not part of the game here.
- Files: descriptors, permissions, fsync and directory listing; a file is its bytes, rename is atomic, a listing is any sequence of files.
- A failed append in a process that carries on: a crash here is the death of the process, then reopening; an oversized payload, refused by `EventLogs.EventLog.Append`, does not reach the repository here.
- SnapshotRuns.RunStartupAgrees: does not model appends behind a torn log; its log is the events read and appended.
- Texts and times of the events compaction adds: parameters, as are all clocks and the random part of a snapshot's name; one clock reading serves an operation.
- Event payloads: the JSON converters are a `decode` parameter assumed faithful, what still can be read of an undecodable payload included. An archive chunk with a bad entry is the chunk of the entries before it. A batch event whose number is missing, which replay stores without moving the counter, and an analysis that names another game than its event are not modelled.
- Repositories.Repository.ApplyEvent: the projection is one record field `memory` instead of a dozen maps; each operation states the whole of it.
- Repositories.Repository.IndexArchiveChunk: does not model validating entries, done before, nor the order of entries within the appended event.
- Repositories.Repository.SaveAnalysis: does not model the snapshot taken after every tenth analysis, nor verifying solutions by play, whose result is a parameter.
- Repositories.Repository.CompleteResource: does not model the catalogue; whether it knows the resource is a parameter.
- Repositories.Repository.AddValidatedDrill: does not model playing the solutions; whether they are legal is a parameter.
- Repositories.Repository.RecordAttempt: does not model playing the move; whether it is legal is a parameter.
- Repositories.Repository.ExtendVariation: does not model playing the move; the legal move with its notation, or none, is a parameter.
- Repositories.Repository.RecordReviewAttempt: does not model playing the move; the legal move, or none, is a parameter.
- Repositories.Repository.RecommendResources: does not model choosing the resources; they are given.
- Repositories.Repository.SaveChessComProfile: does not model validating and normalising the profile, done before.
- Repositories.Repository.SavePlayerIdentity: does not model validating the identity's texts, done before.
- Repositories.Repository.CheckpointMonth: does not model validating names and months, done before.
- Repositories.Repository.SaveSyncState: does not model validating the state's texts, done before.
- bulk_add, which repeats `AddGame`; index files, profile statistics and error-text redaction: output the replay does not read.
- Snapshot files of version 1, which hold fewer fields.
- Counters.NextVariation: does not model the blanks and signs `stoull` lets through before the digits of an identifier the program did not write.
- next_variation_id after compaction: only that it exceeds every live numbered variation.
- JobProofs.TerminalKept: does not model the handler of an error after the task was put back, which `JobProofs.LateLeavesComplete` describes.
- JobProofs.RunKeepsTerminal: as `JobProofs.TerminalKept`.
- JobProofs.JobSafety: as `JobProofs.TerminalKept`.
- Observers, progress, persisted job statuses, the engine process, latency figures and condition variables: a worker steps when the machine allows it.
- JobManagers.JobManager.constructor: does not model the jobs it starts from recoverable games, nor the stored pause flag; those are `StartJobs` and `SetPause` on a new manager.
- JobManagers.JobManager.StartJobs: does not model the sort of its inputs by recency; they are given in the order processed.
- StagingAgreement.StepAgrees: does not model that parameters reach PostgreSQL as C strings, so that a name with a NUL byte is cut there for the hosted store and refused or unknown to the ledger, nor that its `length` counts characters where lengths here count bytes.
- StagingAgreement.RunsAgree: does not model what follows an answer that differs, nor requests to begin a run for a game the owner does not have, which the ledger does not check.
- Responses of the two staging stores are compared up to the reason of a refusal and the order of a bundle; owners, their expiry and their games are a parameter. A jsonb column is the value its text parses to.
- BrowserReviews.Assembled: does not model classifying the moves of the review; it ends with the results before and after every move.
- JsonRoundTrip.CanonicalFixed: does not model texts such as 1.0 or 1e3, which the program reads as exact integers.
- Numbers with a fraction or exponent, or beyond 2^53 - 1, are known by their text: rounding to a double and printing fifteen digits are not modelled, only the range check.
- JSON accessors (`at`, `as_int` and the like), byte offsets in parse errors, HTTP routes, OIDC, the importers, the training scheduler, analysis thresholds, opening tables, `BitboardBoard` and `AnalysisCache`: thin, heuristic or easy.
