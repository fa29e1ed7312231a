# Verified model of the match server

A Dafny model of the logic behind the Free Fire match server and its gateway: the datagram codec, the life and
death rules of a Contra Squad match, its phase machine and score, a player's loadout with the loot on the ground,
the gloo walls, and three small stream and cache algorithms (replay guard, TCP framing, split join tokens).

`dafny verify dfyconfig.toml` checks everything. Dafny 4.11 is what the project is written for.

## How it is built

Behaviour is stated twice. Functions on values say what one step does; classes and methods with loops do it the way
the Go and JavaScript code does, field by field, and are proved equal to the functions. The properties are lemmas
about the functions, and so hold of the methods.

| files | what they hold |
|---|---|
| Bytes, Tea, TeaRounds, Crc7, Crc7Distance, Packet, Wire | the cipher, the checksum and the framer of `match-server/crypto` and `match-server/packet` |
| ReplayGuard, Framing, JoinToken | `src/protocol/replayGuard.js`, `src/tcp/framing.js`, and the token reassembly of the match server |
| Vitals, MatchState | healing; the rules of death, rescue, roster and spectators as steps on a world |
| MatchVitals, MatchRounds, MatchTeams, MatchStanding, MatchSpectators, MatchWinner, MatchKillers, MatchGround, MatchHits, MatchHealing | what every run of those steps keeps, and exactly where it ends |
| MatchBreaks, LoadoutBreaks | runs from a start that reach those ends |
| MatchObject | the match as an object with mutable maps over a roster of session objects |
| Phases, PhaseClock | the thirteen phases, the score and the teardown, as functions and as an object; when each gives way to the next |
| Items, GroundLoot, Loadout, Deeds | placement rules, boxes on the ground, the loadout, and what a player does to them |
| LoadoutRuns, Belongings, LoadoutKinds, Armoury, Conservation, WholeGuns, Spending, EquipLog | agreement of the indexes, kinds, weapon records, totals, and the view of the other players, over every run |
| SessionObject | the session as an object with the equipment list and the maps edited in place |
| Walls, WallHits | the gloo walls, as functions and as an object |

Conventions. Go's map iteration order is arbitrary: a step that visits a map takes the order as an argument, and
the loop in the object picks any order. A choice that Go leaves open (a duplicate stack, a nearest box on a tie) is
an argument with a predicate that says which choices are possible. Clocks, random salt, chosen arenas and what the
network delivers are arguments. Broadcasts are appended to logs where a property is about them. 32-bit and 16-bit
arithmetic is written out where it can matter.

## What turned out to have a boundary

Each line names the lemma that says exactly where the boundary lies.

- The HP rules are safe for a full HP of 20 to 65336 and no other: a rescue sets 20 HP, and EP adds to a 16-bit sum
  (`MatchRounds.FullHPBounds`).
- An EP tick after a gap of 65536 steps or more gives only what the steps cut to 16 bits cover (`Vitals.TickGivesAll`).
- A custom room of 255 rounds has a target of 0 wins, and ends after its first round (`Phases.RoundCounts`).
- The checksum misses exactly one kind of damage to a single byte, the mask 0x89, which is the generator
  (`Packet.DamagedByte`); single bit flips are always found.
- A packet survives the wire exactly when `Packet.Survives` holds: the 16-bit length field silently cuts a longer one.
- Two flipped bits slip through exactly when their distance is a multiple of 127 (`Packet.TwoFlippedBits`).
- A wiped team has nobody on the ground, until the last to stand over a fallen team leaves the match, or is the bot and
  makes room for a human of the other team. No other event breaks it (`MatchStanding.StepStanding`); runs that do:
  `MatchBreaks.DepartureBreaks`, `MatchBreaks.RetirementBreaks`.
- The first team to fall loses, unless both are down at the tick and team 2 fell first: then it wins
  (`MatchWinner.FirstToFallLoses`, `MatchBreaks.FirstToFallWins`). `lastTeamFell`, kept for this, is never read.
- A rescue is completed for a reviver who has left the match (`MatchRounds.DepartedReviverRevives`), so a player of a
  team that is wiped out can stand up again.
- A fallback bot that makes room while it is on the ground leaves its knock record behind. It goes on bleeding, which
  gives it HP again, and can be killed once more by a hit; the record then names another killer than the hit
  (`MatchKillers.StepNames`, `MatchKillers.OnlyTheRetired`, `MatchKillers.RetiredBotIsMisnamed`).
- Spectators watch the living. What breaks it is somebody who gets to their feet while all are down and a dead player is
  watched: by such a rescue (`MatchSpectators.RescueTickWatched`, `MatchBreaks.RescueBreaks`) or by arriving
  (`MatchSpectators.ArrivalWatched`, `MatchBreaks.ArrivalBreaks`). No departure does.
- Wall ids wrap after 2^24 placements (`Walls.IdsIncrease`), box ids after 25536 (`GroundLoot.IdsCollide`). A drop whose
  new box gets the id of a live one takes its place, and what lay there is gone (`GroundLoot.DropLosesNothing`,
  `LoadoutBreaks.BoxOverwritten`). A gun forced out by a pick is lost even without that when its new box gets the id of
  the box just emptied (`Conservation.OustedGunStays`, `LoadoutBreaks.PistolVanishes`). The first 25536 boxes always
  find room (`GroundLoot.RoomWhileFew`).
- The replay cache forgets the oldest live requests beyond its bound; it answers for exactly the last MAX admissions
  (`ReplayGuard.Guard.IsReplay`).
- The comment in `match-server/message/inventory.go` that a melee entry must always be present fails in two ways: the
  bought melee weapon in it is dropped, or an EQUIP request moves the entry to a free slot
  (`EquipLog.MeleeEntryStays`). The second needs no purchase: right after the base loadout a request for slot 3 with
  unique 0 names the fist itself (`EquipLog.FistMovedAway`).
- The other players do not learn the new unique of worn armour, nor that the last wall left its slot. These two deeds
  are the only ones after which a slot is shown wrong (`EquipLog.DeedReplays`).
- The server does not check the slot of an EQUIP request. The request itself leaves the equipment list, the weapon
  records and the tracked items in agreement, in whatever slot it puts the item, but for slot 255: its value stands for
  no slot in the source, so that an item in it can be taken out and stay (`LoadoutRuns.EquipAgrees`,
  `LoadoutBreaks.TakenOutOfNowhere`). What an item out of its kind's slots does break is a later purchase, hit or last
  wall that writes the slot; `Belongings.DeedKeeps` says exactly when, and `LoadoutBreaks` has a run for each.
- A shown weapon has its record, but for a weapon put into a slot out of the bag, or one without ammunition of its own
  picked up over one of its kind (`Armoury.DeedArmed`, `LoadoutBreaks.PistolUnrecorded`). The next gun can then take its slot.
- A purchase whose price times quantity leaves 32 bits costs only what is left (`Spending.PriceTimesQuantity`).
- The server does not check whether an item that is used up is a gun. A used gun forced out of its slot falls as one
  gun again (`Conservation.BuyingGunAdds`, `LoadoutBreaks.UsedPistolGains`).

## Model

| member | source | states |
|---|---|---|
| `Tea.BlockInverse` | match-server/crypto/tea.go:33-57 | for every key, the 16 decryption rounds undo the 16 encryption rounds on every block, and the other way round |
| `Tea.SumInit` | match-server/crypto/tea.go:46-57 | the sum that decryption starts from is sixteen times the round constant modulo 2^32, so both loops walk one schedule |
| `Tea.UnchainOfChain` | match-server/crypto/tea.go:88-102 | the two feedback vectors cancel over any number of blocks and any block permutation |
| `Tea.ChainOfUnchain` | match-server/crypto/tea.go:107-180 | the converse: any ciphertext of whole blocks is the chaining of what it unchains to |
| `TeaRounds.MixBits` | match-server/crypto/tea.go:39-40 | what a half round adds, bit by bit: the exclusive or of the word four places to the left plus a key word, the word plus the running sum, and the word five places to the right plus a key word |
| `TeaRounds.LeftShift` | match-server/crypto/tea.go:39-40 | the bits of the word shifted left are its own from the fifth on, and four clear ones |
| `TeaRounds.RightShift` | match-server/crypto/tea.go:39-40 | the bits of the word shifted right are five clear ones and its own but for the last five |
| `TeaRounds.KnownAnswer` | match-server/crypto/tea.go:33-44 | the block 03 00 00 00 11 22 61 62 under the key 00 11 22 .. ff, whose four words all differ, becomes c6 87 67 3b b9 07 bf 2c, round by round |
| `TeaRounds.TwoBlocks` | match-server/crypto/tea.go:88-102 | the first ciphertext masks the second block before the cipher, and the first input masks it after |
| `TeaRounds.LayoutPlaces` | match-server/crypto/tea.go:66-85 | where filler length, filler, salt, data and the seven zeros stand, in whole blocks and with the least filler |
| `Tea.DecryptUndoesEncrypt` | match-server/crypto/tea.go:61-180 | for every key, plaintext and salt, decrypting an encryption gives the plaintext; a key of another length is refused |
| `Tea.DecryptAcceptsExactly` | match-server/crypto/tea.go:107-180 | decryption returns a plaintext if and only if the ciphertext chains a layout that announces its filler and ends in seven zeros around it |
| `Tea.EncryptECB` | match-server/crypto/tea.go:33-44 | the loop over v0, v1 and sum, in place, computes the block permutation |
| `Tea.DecryptECB` | match-server/crypto/tea.go:46-57 | the loop that runs the sum down computes the inverse permutation |
| `Tea.TeaEncrypt` | match-server/crypto/tea.go:61-103 | the buffer and block loops produce the chained layout, for a salt taken as an argument |
| `Tea.StreamReader.Advance` | match-server/crypto/tea.go:131-144 | the closure moves on by one block and keeps position, vectors and decrypted block tied to the stream; its error branch is never reached by the readers |
| `Tea.StreamReader.CheckZeros` | match-server/crypto/tea.go:167-179 | the trailer test is exactly whether the last seven stream bytes are zero, and consumes exactly the whole ciphertext |
| `Tea.TeaDecrypt` | match-server/crypto/tea.go:107-180 | the byte-at-a-time state machine terminates in range on every input and returns exactly what the stream calls for, the two errors included |
| `Crc7.ChecksumIsRemainder` | match-server/crypto/crc7.go:9-35 | message and checksum together are a multiple of x^7 + x^3 + 1 over GF(2), for messages of any length |
| `Crc7.RemainderIsUnique` | match-server/crypto/crc7.go:9-35 | no other seven bits complete the message to a multiple of the generator |
| `Crc7.RunIsLinear` | match-server/crypto/crc7.go:29-35 | the checksum register is linear in register and message under exclusive or |
| `Crc7.BurstDetection` | match-server/crypto/crc7.go:29-35 | an error within eight consecutive bits goes unnoticed if and only if it is empty or the generator itself |
| `Crc7.ByteErrorDetection` | match-server/crypto/crc7.go:29-35 | changing one byte by a mask keeps the checksum if and only if the mask is 0 or 0x89 |
| `Crc7Distance.OrderOfX` | match-server/crypto/crc7.go:9-26 | a register that is not empty comes back after n clear bits if and only if n is a multiple of 127, the order of x modulo the generator |
| `Crc7Distance.TwoFlips` | match-server/crypto/crc7.go:29-35 | two flipped bits of a byte string keep its checksum if and only if their distance is a multiple of 127 |
| `Crc7.Crc7Table.constructor` | match-server/crypto/crc7.go:9-26 | the nested loops of init fill every table entry with the bit-serial checksum of its byte from its register |
| `Crc7.Crc7Table.CRC7` | match-server/crypto/crc7.go:29-35 | the fold over the table equals bit-serial division of the whole buffer from the low seven seed bits |
| `Packet.RoundTrip` | match-server/packet/packet.go:118-210 | decoding an encoding gives the packet back if and only if it has no gzip flag, no numbers when unreliable, and a payload of at most 65535 bytes plain or 65518 encrypted under a 16-byte key |
| `Packet.DecodeOfEncode` | match-server/packet/packet.go:137-210 | what decoding makes of any encodable packet, oversized ones included: the length field keeps its low 16 bits |
| `Packet.DamagedByte` | match-server/packet/packet.go:137-146 | one damaged byte is reported as a wrong key byte, a wrong checksum, or, behind them, a wrong checksum unless the damage is exactly 0x89 |
| `Packet.FlippedBit` | match-server/packet/packet.go:137-146 | flipping any one bit of any encoded datagram makes decoding fail |
| `Packet.TwoFlippedBits` | match-server/packet/packet.go:137-146 | flipping two bits behind the two checked bytes of any encoded datagram is reported as a wrong checksum if and only if their distance is no multiple of 127 |
| `Packet.AcceptedIsMultipleOfGenerator` | match-server/packet/packet.go:137-146 | whatever is accepted is, body and checksum together, a multiple of the generator |
| `Packet.Encode` | match-server/packet/packet.go:186-210 | the appended buffer is the two checked bytes and the two header shapes around the carried payload |
| `Packet.Decode` | match-server/packet/packet.go:137-182 | the moving offset reads the same fields and reports the same errors in the same order |
| `Wire.DatagramBytes` | match-server/packet/packet.go:186-210 | every byte of every encoded datagram: key byte, checksum, send option, command, the two numbers of a reliable packet, flags, length, low bytes first, and the payload, enciphered under the first flag; the second flag is refused |
| `Wire.KnownDatagram` | match-server/packet/packet.go:186-210 | one reliable datagram in full, its checksum fed bit by bit |
| `ReplayGuard.Guard.IsReplay` | src/protocol/replayGuard.js:44-61 | a request is reported if and only if it repeats one of the last MAX admissions less than a window ago; otherwise it is admitted; size, order and contents of the map stay as specified |
| `ReplayGuard.Guard.Sweep` | src/protocol/replayGuard.js:29-40 | the sweep drops a prefix: up to the first live entry, then down to the bound |
| `ReplayGuard.SweepKeepsLive` | src/protocol/replayGuard.js:29-34 | below the bound the early break removes exactly the expired entries |
| `ReplayGuard.FoundIffRepeats` | src/protocol/replayGuard.js:52-57 | an unexpired entry is there if and only if the request repeats a remembered admission |
| `ReplayGuard.BoundIsInvisible` | src/protocol/replayGuard.js:29-61 | with at most MAX live admissions the bounded answer is the unbounded one |
| `ReplayGuard.SameDecisions` | src/protocol/replayGuard.js:44-61 | over every run that never holds more than MAX live admissions, the cache admits exactly what a plain history would |
| `Framing.ParseIsLossless` | src/tcp/framing.js:42-60 | serialising the frames and appending the rest gives back the input exactly |
| `Framing.ParseIsUnique` | src/tcp/framing.js:42-60 | no other split into whole frames and an incomplete rest exists |
| `Framing.ParseResumes` | src/tcp/framing.js:42-60 | parsing what is left of a first chunk together with a second one continues the parse of both |
| `Framing.ChunkingDoesNotMatter` | src/tcp/gateway.js:85-107 | any stream in any chunks, with the carried rest, gives the frames and the rest of one call on the whole |
| `Framing.ParseClientFrames` | src/tcp/framing.js:42-60 | the loop with a moving offset returns the specified frames and rest |
| `Framing.Connection.OnData` | src/tcp/gateway.js:85-107 | the carried buffer after any chunk is the rest of everything received so far, and all frames so far have been delivered once |
| `Framing.ServerFramesArePrefixFree` | src/tcp/framing.js:66-73 | no server frame continues another, so the client can tell where one ends |
| `Framing.EncodeServerFrame` | src/tcp/framing.js:66-73 | the buffer is the command, four big-endian length bytes and the payload, or one byte for the heartbeat |
| `Framing.FrameBytes` | src/tcp/framing.js:42-60 | the bytes of a client frame: command, region, the length with its high byte first, payload; two bytes for a heartbeat |
| `Framing.ServerFrameBytes` | src/tcp/framing.js:66-73 | the bytes of a server frame, in which the region is missing; one byte for a heartbeat |
| `JoinToken.SplitTokenComesBack` | match-server/handlers.go:124-170 | a split HS256 token (section 7.1 of RFC 7515, section 3.2 of RFC 7518) is rebuilt if and only if the declared length does not cut its head and its tail has at most 4096 bytes, behind any metadata |
| `JoinToken.TailIsLastField` | match-server/message/joinreq.go:117-139 | the scan never prefers an overlapping window: behind any metadata the tail is found whole |
| `JoinToken.PrefixIsIncomplete` | match-server/message/joinreq.go:105-110 | a proper prefix of a token never passes for a complete one |
| `JoinToken.WholeTokenComesBack` | match-server/handlers.go:141-170 | a token that arrived whole in cmd 439 is returned whatever cmd 440 holds |
| `JoinToken.ScannedTokenComesBack` | match-server/message/joinreq.go:85-95 | a token whole in cmd 440 is found by the header scan unless the header occurs earlier or the run goes on behind it |
| `JoinToken.ExtractJWT` | match-server/message/joinreq.go:85-95 | the loop returns the run of token characters at the first header, or nothing |
| `JoinToken.LastJWTField` | match-server/message/joinreq.go:117-139 | the loop returns the length-prefixed token field that ends last, the first such on a tie |
| `JoinToken.Session.HandleJoinMatchPrepare` | match-server/handlers.go:124-135 | the buffer holds the chunk, cut at a declared length that is positive and shorter |
| `JoinToken.Session.PrepareToken` | match-server/handlers.go:141-170 | the token built from the buffer, the extracted prefix and the tail, with the fixed-offset field as fallback |
| `Walls.RunKeepsInvariant` | match-server/gloo.go:83-336 | over every run of fewer than 2^24 placements: ids increase along the list, at most three walls an owner, hp in 1..750 with the crack state it calls for, and the packet log replays to exactly the live walls |
| `Walls.IdsIncrease` | match-server/gloo.go:83-89 | allocated ids increase if and only if fewer than 2^24 walls are placed |
| `Walls.EvictionIsFifo` | match-server/gloo.go:112-120 | eviction removes that owner's oldest wall, and no one else's; the order of the rest stays |
| `Walls.PlaceEffect` | match-server/gloo.go:246-266 | a placement adds one full wall for its owner, evicts only beyond the cap, and leaves the other owners' walls alone |
| `Walls.SweepIsPrefix` | match-server/gloo.go:309-323 | the lifetime sweep removes exactly the expired walls, which are a prefix, and reports each once |
| `Walls.WallField.HandlePlaceIcewall` | match-server/gloo.go:246-266 | the append and the trim loop, which terminates, produce the specified list and log |
| `Walls.WallField.HandleIcewallDamage` | match-server/gloo.go:273-304 | damage lowers hp and crack state of one wall, or removes it at zero, and ignores unknown ids |
| `Walls.WallField.SweepWalls` | match-server/gloo.go:309-323 | the filtering loop keeps exactly the unexpired walls |
| `Walls.WallField.ClearWalls` | match-server/gloo.go:328-336 | every live wall is reported removed and none is left |
| `WallHits.RunHP` | match-server/gloo.go:273-304 | over every run of fewer than 2^24 placements a standing wall has 750 HP less the damage reported while it stood, of which the low 16 bits count, or 25 where they say nothing; it is cracked exactly from 330 down |
| `WallHits.OneReport` | match-server/gloo.go:273-304 | a report takes what counts from the wall it names, which falls if and only if that is all it has; no other wall changes |
| `WallHits.PlacedWall` | match-server/gloo.go:246-266 | a wall is placed last with 750 HP, and its owner then has at most three, the oldest of four gone |
| `WallHits.SweptAfterNinetySeconds` | match-server/gloo.go:309-323 | a wall survives the sweep if and only if it has stood for less than ninety seconds |
| `Vitals.HealIsScheduleFree` | match-server/medkit.go:118-144 | after any ticks ending at t, one medkit has given min(maxHP, hp0 + min(75, steps)), however late or often the ticks came |
| `Vitals.EnergyIsScheduleFree` | match-server/ep.go:35-67 | after any ticks ending at t with fewer than 65536 steps between one and the next, EP has become min(ep0, maxHP - hp0, steps) HP, and hp + ep is conserved |
| `Vitals.TickGivesAll` | match-server/ep.go:35-67 | one tick gives all the HP that is due if and only if its number of steps, cut to 16 bits, still covers it |
| `Vitals.EnergyRests` | match-server/ep.go:35-67 | at full HP or off the feet energy is neither used nor saved up: the next HP comes a quarter of a second after the last such tick |
| `Vitals.HealIsLost` | match-server/medkit.go:118-126 | whoever goes down loses the rest of a medkit, also when up again |
| `MatchHealing.MedkitHeals` | match-server/medkit.go:83-144 | in a match: by the last of any ticks a medkit has given one HP every 66666666 ns, 75 at most and never over the full HP; five seconds are enough; nothing else changes |
| `MatchHealing.MushroomFeeds` | match-server/ep.go:23-67 | in a match: a mushroom adds 100 energy up to 200, which has become one HP every quarter of a second until used up or full |
| `MatchVitals.RunKeeps` | match-server/deathmatch.go:54-241 | over every run of damage, bleeding, rescues, healing, EP, revivals, arrivals, departures and the fallback bot, for each participant: a knock record if and only if Knocked; Knocked has the bleed pool as HP, in 1..200; Dead has 0; Alive has 1..maxHP |
| `MatchVitals.ApplyDamageKeeps` | match-server/deathmatch.go:54-158 | one hit, through knock, death or the sweep of a wiped team, keeps that |
| `MatchVitals.StepKnockKeeps` | match-server/deathmatch.go:317-330 | a bleed tick in any visiting order keeps it |
| `MatchVitals.StepRescueKeeps` | match-server/deathmatch.go:439-460 | a rescue tick in any visiting order keeps it |
| `MatchVitals.HealingKeeps` | match-server/medkit.go:118-144 | the HP writers of medkits and mushrooms keep it |
| `MatchVitals.JoinKeeps` | match-server/match.go:162-213 | an arrival below the wrap of the one-byte slot, and so any that the cap of eight admits, gets an unused id, retires the bot, and keeps it |
| `MatchVitals.RemoveKeeps` | match-server/match.go:219-247 | a departure keeps it for everyone who stays |
| `MatchVitals.SpawnBotKeeps` | match-server/match.go:818-828 | the fallback bot keeps it if and only if no knock record of an earlier bot is left; the phase machine never sends a second one (Phases.RunKeeps: at most one bot), so the failing side is out of reach there |
| `MatchRounds.FullHPBounds` | match-server/deathmatch.go:454-460 | the HP bound holds over all runs if and only if the full HP is in 20..65336; outside, a concrete run breaks it |
| `MatchRounds.NobodyWatchesLeaver` | match-server/match.go:219-247 | right after a departure nobody watches the leaver |
| `MatchRounds.DepartedReviverRevives` | match-server/deathmatch.go:439-451 | a rescue outlives its reviver: while there, it completes if and only if the time is over and the reviver is alive; once the reviver has left, only the time counts |
| `MatchTeams.RunCounts` | match-server/deathmatch.go:148-241 | over every run in which the bot, once it has come, stays: nobody dies twice between revivals; the 16-bit kill and death counters count the logged deaths by enemies and of each victim; only participants have records |
| `MatchKillers.KillersAreNamed` | match-server/deathmatch.go:54-197 | over every run, for every player, and for the bot where it stays once it has come: the killer on record for a knock is the attacker of the last hit that took the victim from alive to the ground, and each logged death names the attacker of the last hit that had felled its victim by then |
| `MatchKillers.RunKillers` | match-server/deathmatch.go:148-197 | the same over every run whatever, for anybody who is never killed outright while on record |
| `MatchKillers.StepNames` | match-server/deathmatch.go:148-235 | one event: the names on record and in the log stay right if and only if it does not kill outright, by another hand, somebody still on record |
| `MatchKillers.OnlyTheRetired` | match-server/match.go:187-202 | that somebody can only be a fallback bot that has left |
| `MatchKillers.RetiredBotIsMisnamed` | match-server/match.go:187-202 | a run from a start that reaches it: the bot goes down, makes room, bleeds once, and is hit again |
| `MatchHits.SurvivedHit` | match-server/deathmatch.go:54-142 | a hit that leaves HP takes exactly its damage, from the HP or on the ground from the bleed pool; on the dead, or after the round, it does nothing |
| `MatchHits.KnockdownHit` | match-server/deathmatch.go:148-174 | a hit that takes the last HP while a teammate is up leaves the victim on the ground with 200 HP, the next bleed after a second and a half, and the attacker on record, and changes nothing else |
| `MatchHits.WipingHit` | match-server/deathmatch.go:148-223 | one that takes the last HP of the last of a team kills it and whoever of the team was on the ground, and nobody else |
| `MatchHits.DeathTurnsEyes` | match-server/deathmatch.go:228-286 | a killed player and its watchers turn to its new focus, and the death of the bot turns nobody |
| `MatchHits.KnockDeathTurnsEyes` | match-server/deathmatch.go:183-197 | the same for a death by bleeding or by a sweep |
| `MatchHits.FirstOfRoster` | match-server/deathmatch.go:362-372 | who is watched: the first of the roster that is up, and the bot after all of them |
| `MatchHits.MatesFirst` | match-server/deathmatch.go:352-358 | a teammate rather than an enemy |
| `MatchHits.RevivalRestores` | match-server/deathmatch.go:334-347 | between rounds everybody is alive with the full HP, nobody watches, no record is left, and the scoreboard stays |
| `MatchHits.NoHitAfterTheRound` | match-server/match.go:914-918 | the end of a round changes nothing else, and no hit after it does anything |
| `MatchHits.EnergyStartsAnew` | match-server/ep.go:70-73 | a new round starts without energy and with all the mushrooms to buy again |
| `MatchHits.ArrivalSits` | match-server/match.go:162-182 | an arrival that names no team joins the smaller one, the first on a tie, so that teams no more than one apart stay so |
| `MatchHits.NewcomerAndBot` | match-server/match.go:187-213 | the newcomer stands at full HP, the retired bot leaves its knock record and nothing else, and all others keep what they had |
| `MatchGround.RunRescues` | match-server/deathmatch.go:412-451 | over every run: whoever is being revived was on the ground, the reviver up and of the same team, and nobody else reviving, when the rescue began; it is over four seconds later, and nothing has touched it since |
| `MatchGround.OnlyTeammatesRevive` | match-server/deathmatch.go:412-460 | over every run: outside a revival, whoever gets up from the ground does so in a rescue tick, with 20 HP, no earlier than four seconds after a living teammate began |
| `MatchGround.StopsRescue` | match-server/deathmatch.go:430-435 | a rescue is stopped by its own reviver and by nobody else |
| `MatchGround.TickKeepsRescue` | match-server/deathmatch.go:439-451 | after a tick that visits it, a rescue goes on only if its target is on the ground, its reviver up, and its time not over |
| `MatchGround.BleedingIsClockwork` | match-server/deathmatch.go:317-330 | left alone, a player on the ground loses ten HP at the deadline and every second and a half from then on, and is dead as soon as that makes the pool, for all ticks no further apart than that |
| `MatchGround.ThirtySeconds` | match-server/deathmatch.go:163-197 | so a knocked player who is left alone lives if and only if the last tick came less than thirty seconds after the knock |
| `MatchGround.RunBleeds` | match-server/deathmatch.go:163-330 | over every run: whoever is on the ground and was not hit again has 200 HP less ten for each bleed, which come a second and a half apart from the hit that felled it on |
| `MatchGround.NobodyBleedsOutEarly` | match-server/deathmatch.go:317-330 | over every run: whoever bleeds out without being hit again does so no earlier than thirty seconds after the hit that felled it |
| `MatchStanding.RunStanding` | match-server/deathmatch.go:148-241 | over every run without those two, with humans coming and going and bots making room, a team with nobody standing has nobody on the ground |
| `MatchStanding.StepStanding` | match-server/deathmatch.go:148-241 | of all events exactly two break the promise that a wiped team has nobody on the ground: the departure of the last to stand over a fallen team, and the retirement of a bot that is that one |
| `MatchStanding.DepartureStanding` | match-server/match.go:219-247 | a departure keeps the promise about wiped teams if and only if the leaver is not alive, or nobody of its team is on the ground, or somebody else of it is alive |
| `MatchBreaks.DepartureBreaks` | match-server/match.go:219-247 | a run from a start that reaches that boundary: one of two falls and the other leaves |
| `MatchStanding.RetirementStanding` | match-server/match.go:162-213 | an arrival that retires the bot keeps that promise if and only if the bot is not the last to stand over a fallen team or the newcomer joins that team |
| `MatchBreaks.RetirementBreaks` | match-server/match.go:162-213 | a run from a start that reaches that boundary: the bot, the fall of its teammate, an arrival on the other team |
| `MatchTeams.SweepEffect` | match-server/deathmatch.go:216-223 | the sweep kills exactly the knocked members of the team, whatever order the records are visited in |
| `MatchStanding.DownOrKillStanding` | match-server/deathmatch.go:148-158 | a lethal hit, whose sweep visits every knocked member in any order, leaves no wiped team with somebody on the ground |
| `MatchStanding.AliveCounts` | match-server/knockdown.go:77-88 | the count of the living is zero if and only if no participant of the team is alive |
| `MatchWinner.FirstToFallLoses` | match-server/match.go:914-922 | the promise that the first team to fall loses is kept by the tick that ends the fight, except exactly when both teams are down at it and team 2 fell first; the field kept as tiebreak is read nowhere |
| `MatchWinner.NoTie` | match-server/match.go:74 | two teams never fall at the same event, over any run, so the first is always defined |
| `MatchBreaks.FirstToFallWins` | match-server/match.go:914-922 | a run from a start in which team 2 falls first, team 1 before the next tick, and team 2 wins |
| `MatchSpectators.SpectatorsWatchTheLiving` | match-server/deathmatch.go:246-286 | over every run of a match of humans whose arrivals and rescue ticks put somebody on their feet only when somebody is up already or nobody watches a dead player: whoever watches is dead, the watched one is on the roster, and while anyone is up nobody watches the dead |
| `MatchSpectators.ArrivalWatched` | match-server/match.go:162-213 | an arrival keeps that if and only if somebody is up already or nobody watches a dead player |
| `MatchBreaks.ArrivalBreaks` | match-server/match.go:162-213 | a run from a start that breaks it: both of a duel fall before the next tick, and somebody arrives |
| `MatchSpectators.DepartureWatched` | match-server/match.go:219-247 | every departure keeps that: the watchers of a leaver find somebody who is up, or nobody |
| `MatchSpectators.RescueTickWatched` | match-server/deathmatch.go:439-460 | a rescue tick, in any visiting order, keeps that if and only if it raises nobody, or somebody was up before, or nobody watches a dead player |
| `MatchBreaks.RescueBreaks` | match-server/deathmatch.go:439-460 | a run from a start that breaks it: a reviver leaves, both teams fall, and the rescue is completed |
| `MatchSpectators.NobodyToWatch` | match-server/deathmatch.go:352-372 | no spectate target means that nobody at all is up |
| `MatchSpectators.WatchersFollow` | match-server/deathmatch.go:246-286 | after a death the victim and everyone who watched it watch its new focus, and nobody else moves |
| `MatchObject.Match.ApplyDamage` | match-server/deathmatch.go:54-117 | the handler's field updates are the specified step, for some visiting order that covers every knock record, and keep the invariant |
| `MatchObject.Match.TeamFellToZero` | match-server/deathmatch.go:216-223 | the map loop that deletes while it visits equals the sweep in the order of its visits, each record once |
| `MatchObject.Match.RepointSpectators` | match-server/deathmatch.go:275-286 | the loop that writes one session object after the other equals moving all spectators at once |
| `MatchObject.Match.FinalizeKnock` | match-server/deathmatch.go:183-197 | credit, life, HP, records and spectators after a knock becomes a death |
| `MatchObject.Match.StepKnock` | match-server/deathmatch.go:317-330 | the bleed loop equals the specified bleeding in the order of its visits |
| `MatchObject.Match.StepRescue` | match-server/deathmatch.go:439-451 | the rescue loop equals the specified rescues in the order of its visits |
| `MatchObject.Match.ReviveAll` | match-server/deathmatch.go:334-347 | everybody is alive at full HP, nobody watches, no records are left, damage resumes |
| `MatchObject.Match.TeamAlive` | match-server/knockdown.go:77-88 | the loop counts the living of a team, the bot included |
| `MatchObject.Match.FirstAlive` | match-server/deathmatch.go:362-372 | the loop finds the first live member, the bot last |
| `MatchObject.Match.HealTick` | match-server/match.go:475-479 | the per-player medkit tick equals the specified one, player by player |
| `MatchObject.Match.EnergyTick` | match-server/match.go:475-479 | the per-player EP tick equals the specified one, player by player |
| `MatchObject.Match.AddPlayer` | match-server/match.go:162-213 | the balanced slot is new, the player is seated at full HP, the bot is gone, under the manager's cap of eight |
| `MatchObject.Match.SpawnBot` | match-server/match.go:818-828 | the bot's entries are written as specified, and the invariant holds afterwards if and only if no knock record of an earlier bot is left |
| `MatchObject.Match.RemovePlayer` | match-server/match.go:219-247 | the filter loop and the deletes equal the specified departure, spectators re-pointed last; given a session object that is not the roster's own, the roster stays and only the records of its entity go |
| `Phases.RunKeeps` | match-server/match.go:831-971 | over every run: scores are the rounds won and sum to the rounds finished, streaks are the rounds lost in a row, both scores stay below the target until the end, then exactly the last winner stands at it; the channel is closed at most once |
| `Phases.EndFightKeeps` | match-server/match.go:914-971 | the round cap never decides alone: a fight ends the match if and only if its winner reached the target |
| `Phases.RoundCounts` | match-server/matchsettings.go:128-131 | among the round counts 1..255 of a custom room, the winner always reaches (rounds + 1) / 2 if and only if there are at most 254; 255 wraps and the first round ends the match |
| `Phases.EveryMatchEnds` | match-server/match.go:831-909 | if every tick is due and every fight ends, 16 * roundsToWin - 2 ticks bring the match to its end or cancellation, with the channel closed exactly once |
| `Phases.TickProgress` | match-server/match.go:831-909 | every due tick lowers a measure of rounds left, place in the cycle and start; no tick raises it |
| `PhaseClock.MatchStarts` | match-server/match.go:721-746 | over every run: a custom room is started by the first tick three seconds or more into SetupWait, with the bot if it is on and a team is short, and never cancelled; any other match is started by a tick that sees both teams ready after SetupWait or in the hold, or by one thirty seconds or more into the hold that brings the bot, and otherwise that tick cancels it |
| `PhaseClock.RoomsGoOn` | match-server/match.go:729-741 | a custom room is neither held for players nor cancelled, over every run |
| `PhaseClock.HoldBegins` | match-server/match.go:742-746 | the hold for players begins with the tick that leaves SetupWait |
| `PhaseClock.PhasesLast` | match-server/match.go:831-909 | over every run: a fight is left by the tick that sees a team down, the hold by one that sees both teams ready, and any other phase by the first tick after its time, in nanoseconds, and none before; whether the dead are bound again depends on there being any |
| `PhaseClock.RunClock` | match-server/match.go:695-703 | the deadline of a phase is always the tick that began it and the time of the phase later |
| `PhaseClock.RoundGoesTo` | match-server/match.go:914-971 | a fight that ends gives the round to the team that stands, to the second when neither does; score, both streaks, winner and next phase in numbers |
| `Phases.CSMatch.AdvancePhase` | match-server/match.go:831-909 | the switch over thirteen phases, field by field, is the specified tick and keeps the invariant |
| `Phases.CSMatch.FinishFight` | match-server/match.go:914-971 | score, loss streaks, winner and next phase after a round |
| `Items.PlacementKinds` | match-server/purchase.go:61-112 | guns go to gun slots, armour to its two slots, everything else elsewhere, for both shop formats |
| `Items.PutWhere` | match-server/purchase.go:61-112 | for each slot, exactly which shop items are put there in either shop format, and the ammunition they take |
| `Items.AmmoKinds` | match-server/purchase.go:23-29 | which guns take which of the five kinds of ammunition, and that nothing else does |
| `GroundLoot.MergeRadius` | match-server/loot.go:236-246 | two items share a box if and only if they lie within one and a half metres of each other in space |
| `GroundLoot.IdsCollide` | match-server/loot.go:140-149 | two boxes get the same id if and only if their numbers differ by a multiple of 25536 |
| `GroundLoot.DropKeeps` | match-server/loot.go:230-272 | a drop, overwriting or not, keeps boxes keyed, more than 1.5 m apart and nonempty, every unique in one place, and brings nothing else to the ground |
| `GroundLoot.DropLosesNothing` | match-server/loot.go:140-149 | a drop leaves everything that lay on the ground if and only if it merges into a box or the id of its new box is not in use |
| `LoadoutBreaks.BoxOverwritten` | match-server/loot.go:140-149 | a run from the start of 25536 boxes in which a dropped medkit takes the place of a lying pistol |
| `GroundLoot.TakeKeeps` | match-server/loot.go:287-295 | taking an item removes it and nothing else, and leaves at most its own box empty |
| `LoadoutRuns.BuyGunAgrees` | match-server/purchase.go:286-341 | buying a gun keeps the three indexes in agreement whatever the slots hold, and untracks the displaced one |
| `Armoury.NewGun` | match-server/purchase.go:117-130 | a bought or picked gun displaces one if and only if both primary slots carry records, or for another kind its slot does; it is the primary in hand, and otherwise the one in slot 0; it falls as one loaded gun; if none is displaced nothing falls and every record stays |
| `Armoury.BoughtGunArrives` | match-server/purchase.go:286-341 | where a bought gun goes: a free primary slot, the first before the second; it is in hand and tracked, and all else stays |
| `Armoury.PickedGunArrives` | match-server/loot.go:358-425 | the same for a picked gun |
| `LoadoutRuns.BuyStackAgrees` | match-server/purchase.go:320-335 | a bought stack or piece of armour keeps the indexes in agreement if and only if its slot carries no weapon record and the stack that grows is shown in no other slot |
| `LoadoutBreaks.GrenadeOverPistol` | match-server/purchase.go:350-358 | a run from the start that breaks it: the pistol moved to the grenade slot, and a grenade bought |
| `LoadoutRuns.TakeStackAgrees` | match-server/loot.go:426-452 | a folded stack stays one stack, in the slot and the hand of the one it replaces |
| `LoadoutRuns.EquipAgrees` | match-server/equip.go:20-79 | a request for any slot keeps the indexes in agreement, in or out of kind, if and only if it takes no item out of slot 255, which the handler reads as no slot |
| `Armoury.EquippingMovesRecords` | match-server/equip.go:38-135 | moving an item shown in a slot other than 255 keeps every weapon record, with data, unique and ammunition, in the slot that now shows the gun, and makes no other |
| `Armoury.RunArmed` | match-server/equip.go:38-135 | over every guarded run without the two deeds of the next row, the slots with a weapon record are exactly those that show a weapon |
| `Armoury.DeedArmed` | match-server/equip.go:38-59 | of all deeds exactly these two leave a shown weapon without its record: putting on a weapon that is carried but not shown, and folding a weapon the pick-up takes for no gun into one that is shown |
| `LoadoutBreaks.PistolUnrecorded` | match-server/equip.go:53-59 | a run from the start that reaches it: a medkit put over the pistol, and the pistol into another slot |
| `LoadoutBreaks.TakenOutOfNowhere` | match-server/equip.go:20-59 | a run from the start that breaks it: the pistol moved to slot 255 and out of it |
| `LoadoutRuns.WearAgrees` | match-server/durability.go:52-121 | remaking or breaking what sits in the armour slot keeps the indexes in agreement if and only if that slot carries no weapon record |
| `LoadoutBreaks.PistolInVestSlot` | match-server/durability.go:79-121 | a run from the start that breaks it: a vest, the pistol moved to its slot, and a hit |
| `LoadoutRuns.PlaceWallAgrees` | match-server/gloo.go:179-235 | placing a wall keeps the indexes in agreement if and only if it is not the last, or the building slot carries no weapon record and the stack is shown in no other slot |
| `LoadoutBreaks.WallInGunSlot` | match-server/gloo.go:179-235 | a run from the start that breaks it: the one wall moved to a gun slot, and placed |
| `LoadoutRuns.FreshAgrees` | match-server/cssync.go:100-184 | the indexes of the base loadout agree, under uniques never used before |
| `Belongings.RunKeeps` | match-server/loot.go:189-497 | over every run that heeds the guard of the next row, whatever slots the client names: no unique in two slots, shown items tracked as what they show, weapon records of weapons and as shown, uniques given out before, one stack an item; held and lying items disjoint, each lying unique once; boxes in order |
| `Belongings.DeedKeeps` | match-server/loot.go:189-497 | of all that can happen, what breaks that is exactly: a stack bought, a last wall placed or a piece worn against the conditions above, and an item taken out of slot 255 |
| `LoadoutKinds.KindsRun` | match-server/purchase.go:61-112 | over every run whose EQUIP requests stay among the slots of an item's kind, every guard holds by itself and everything stays in the slots of its kind |
| `Conservation.MovingConserves` | match-server/loot.go:369-497 | picking up and dropping preserve the total of every item, held and lying, less exactly what an overwritten box held and a gun whose new box is deleted with the emptied one, plus what a used gun regains by being forced out; with room in the id band nothing is lost |
| `Conservation.OustedGunStays` | match-server/loot.go:395-459 | a gun that a pick forces out is on the ground afterwards if and only if its new box is not given the id of the box just emptied; otherwise it is nowhere |
| `LoadoutBreaks.PistolVanishes` | match-server/loot.go:455-459 | a run from the start of 25536 boxes that loses a carried pistol that way |
| `WholeGuns.RunConserves` | match-server/loot.go:369-497 | after any guarded run that uses up no weapon, picking up and dropping gain nothing; with room they preserve every total exactly |
| `Conservation.BuyingAdds` | match-server/purchase.go:286-341 | a purchase without a gun raises the total of the item by exactly the quantity, and no other |
| `Conservation.BuyingGunAdds` | match-server/purchase.go:286-341 | a purchase of a gun adds one gun and its reserve of ammunition; the displaced gun falls as one gun whatever its count was, and nothing else changes unless its new box takes over a live id |
| `Spending.GunComesWith` | match-server/purchase.go:142-172 | a gun comes loaded, with 60 rounds for a sniper or shotgun, 120 for another, and none without ammunition |
| `Spending.ArmourComesFull` | match-server/durability.go:28-48 | a vest or helmet of the second, third or fourth tier comes with 220, 300 or 400 of durability and fills its bar |
| `Spending.BoughtStackGrows` | match-server/purchase.go:320-341 | a repeat buy makes the stack larger and changes nothing else of it; anything else bought is a new item; either is shown in its slot |
| `Spending.PickedStackTakesOver` | match-server/loot.go:426-452 | a picked stack takes over count, slot and hand of the one of its kind, which is tracked no more, and keeps what it was loaded with |
| `Spending.UniquesGivenOut` | match-server/purchase.go:344-347 | how many fresh uniques each deed uses up |
| `Spending.PriceTimesQuantity` | match-server/purchase.go:177-216 | the cost is price times quantity if and only if that fits into 32 bits, and then a purchase is paid for if and only if the coins cover it, the item is in the shop, and a mushroom is one of the first two of the round |
| `Spending.UsingTakesOne` | match-server/medkit.go:83-98 | a use takes one of the item if any is left, keeps the item, and changes no other total |
| `Spending.WallTakesOne` | match-server/gloo.go:179-223 | a placed wall takes one from the walls carried and nothing else; the last frees the building slot and draws the weapon from before the walls, or else the first of the primaries and the secondary |
| `Spending.HoldingRemembers` | match-server/combat.go:80-115 | taking out the walls remembers the weapon in hand, and anything else remembers nothing new |
| `Spending.LastWallGivesBack` | match-server/gloo.go:205-219 | so after the last wall the weapon from before is in hand again |
| `Spending.WearLeaves` | match-server/durability.go:52-121 | wear leaves one worn piece with the durability that is left, under a fresh unique, or none, and touches no other item, weapon or slot |
| `Spending.RefillGivesTwo` | match-server/cssync.go:232-272 | between rounds a survivor has exactly two medkits and the rest as before |
| `Spending.ResetGives` | match-server/cssync.go:100-184 | whoever died has two medkits, the pistol in hand and 120 rounds, and nothing else |
| `LoadoutBreaks.UsedPistolGains` | match-server/medkit.go:83-98 | a run from the start: the pistol is used up, another is bought over it, and there are two more than before the purchase |
| `EquipLog.DiffReplays` | match-server/equip.go:181-212 | applying the broadcast difference to the snapshot gives the current slot map, in every slot |
| `EquipLog.DeedReplays` | match-server/durability.go:79-121 | a slot shown right is still shown right after a deed, in every slot, if and only if the deed is neither wear of the occupied armour slot nor a last wall that leaves an occupied building slot |
| `EquipLog.WireFollows` | match-server/equip.go:41-68 | over every run and for every order of the map loops, replaying the cmd-121 changes gives a steady observer the server's item in every slot that no deed of the run made fall behind |
| `EquipLog.FollowedKeepsUp` | match-server/equip.go:41-68 | those are at least all slots but the two armour slots and the building slot |
| `EquipLog.ResyncShows` | match-server/equip.go:155-164 | a newcomer shows exactly the current map after the resync |
| `EquipLog.ResyncIsLean` | match-server/equip.go:155-164 | the resync sends no slot twice and not the placeholder of the fist |
| `EquipLog.MeleeEntryStays` | match-server/message/inventory.go:11-12 | of all deeds, requests out of kind included, the melee entry that must always be there is removed exactly by dropping the item in it and by an EQUIP of it to another slot that is free |
| `SessionObject.Session.HandleEquip` | match-server/equip.go:20-79 | the in-place list and map edits are the specified swap or move for every request, and send the two changes; the belongings stay in order if and only if nothing is taken out of slot 255 |
| `SessionObject.Session.HandlePickup` | match-server/loot.go:369-467 | the handler, with the pointer it keeps to the box it took from, equals the specified pickup, keeps the belongings in order and tells the others |
| `SessionObject.Session.HandleDrop` | match-server/loot.go:474-497 | the handler equals the specified drop, keeps the belongings in order and tells the others |
| `SessionObject.Session.HandlePurchase` | match-server/purchase.go:177-263 | a purchase is denied or unknown and changes nothing, or takes the 32-bit cost from the coins, counts mushrooms to their limit, equals the specified purchase and tells the others; the belongings stay in order if and only if the guard holds |
| `SessionObject.Session.UseInventory` | match-server/medkit.go:83-98 | one is taken from a positive count of any tracked item, and the belongings stay in order |
| `SessionObject.Session.RemoveTrackedItem` | match-server/loot.go:202-223 | the lookup through weapons or equipment removes every trace of a unique |
| `SessionObject.Session.NearestBox` | match-server/loot.go:236-246 | the loop finds a nearest box within the radius, or none if there is none |
| `SessionObject.Session.AllocContainerID` | match-server/loot.go:140-149 | the id counter wraps inside its band although it is a uint16 |
| `SessionObject.Session.BroadcastEquipDiff` | match-server/equip.go:197-212 | the two loops send the difference of snapshot and list, covering every slot of both |
| `SessionObject.Session.WearArmor` | match-server/durability.go:52-121 | the hit piece is remade under a fresh unique with what is left, an argument, or removed; the belongings stay in order if and only if the slot carries no weapon record |
| `SessionObject.Session.PlaceIcewall` | match-server/gloo.go:179-235 | one wall is taken from the stack; with the last the slot is freed and the hand goes to a gun; the belongings stay in order if and only if the guard holds |
| `SessionObject.Session.GiveLoadout` | match-server/cssync.go:100-184 | everything held and lying is replaced by the base loadout, and the others are told |
| `SessionObject.Session.ReissueLoadout` | match-server/cssync.go:232-272 | the medkits are two again under the unique they had, or a fresh one |

## Left out

- Sockets, goroutines, mailboxes, tickers, acknowledgement and ordering of reliable packets: every handler and tick
  is one atomic step. The loss of unreliable packets is not modelled.
- The payloads of the messages, apart from the datagram frame, the server frame and the join token.
- First blood, coins and per-round kills, the weapon and position kept with a knock, disconnect and reconnect handling
  apart from the removal itself, the safe zone and battle flags.
- MatchObject.Match.ApplyDamage: the damage totals of the scoreboard are not kept, and armour wear takes place in the
  model of the loadout; the damage that arrives is an argument.
- A team is the high byte of an entity id, as in `teamOf`; that a session's own team field agrees is taken from
  `addPlayer`.
- The manager admits at most eight humans to a match (`match-server/manager.go`), so the one-byte slot never repeats;
  an arrival beyond that is not modelled.
- MatchTeams.RunCounts: no arrival retires the bot in such a run, as the bot's counters go with it while its deaths stay
  logged. `MatchStanding.RunStanding` does cover such arrivals.
- MatchSpectators.SpectatorsWatchTheLiving: for matches of humans; when a watched bot dies its watchers are not moved.
- The replay signature is the pair of endpoint and body, not its SHA-256; collisions are not modelled. The clock does
  not run backwards.
- The development switches, the loading of settings apart from the round count, and the choice of arenas.
- The file that defines the pauses `postToBlack`, `postBlackHold` and `introReveal` is not part of this model: they are
  arguments, and Phases.EveryMatchEnds asks that they are positive.
- The economy apart from what a purchase costs: round income, bonuses, and the switch for unlimited money.
- Attachments only use up uniques. Magazine sizes are a function of the item. The counter of uniques is not bounded
  by 32 bits.
- One player's belongings with the boxes: uniques are per session and may collide between players.
- SessionObject.Session.WearArmor: takes what is left of the piece as an argument, less than before as a hit takes at least
  one. The formula of `wearDown` is not modelled: it truncates a float64 quotient where rounding decides, and Go leaves
  the conversion open above 65535. Which of two armour pieces a reduction belongs to is left out with it.
- SessionObject.Session.HandlePurchase: the energy of a bought mushroom is granted in the model of the match, and the
  messages other than the slot changes are left out.
- The box objects are values in a map; that a pickup goes on holding the box it took from is captured by what that box
  was left with and by whether the ousted gun fell into it.
- SessionObject.Session.ReissueLoadout: the magazines and reserves that are only re-sent are not part of the state.
- Box positions are whole millimetres.
- Walls are values in a list; the pointer by which a handler keeps a wall is not captured. Placement and damage
  payloads, rotation and skin are left out.
- The gzip branch of the datagram decoder stays the error it is.
- The stream, the clock and the join burst of `run()` are left out.
- MatchObject.Match.AddPlayer: positions, loadouts and the join packets of `admitLater` are not modelled.
