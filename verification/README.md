# vpn_mgr and libUseful: a verified model

vpn_mgr sets up virtual private networks; the library it bundles, libUseful, gives it its seccomp filters, its HTTP
client, its lists and maps, its dialogs with other programs and its stores. This project models the parts of both in
which most can go wrong, and proves what they are for. `dafny verify dfyconfig.toml` checks all of it.

| files | what they model |
|---|---|
| `SeccompRules`, `SeccompArgs`, `SeccompCompile`, `SeccompGroups`, `SeccompExpand`, `SeccompNames`, `SeccompFilter`, `Bpf` | the compiler from rule texts to classic BPF programs, an interpreter for these, and the kernel's check of them |
| `SeccompCalls`, `SeccompTexts`, `SeccompGroupTexts` | what names and words in a rule text do to a call, in numbers: bits and values of its arguments, and what the installed filter returns |
| `SeccompLevels`, `SeccompFamilies`, `SeccompInstalled`, `SeccompMonotone`, `SeccompSeverity`, `SeccompTable` | the named security levels: their texts and rules, the calls they come down to, the length of their filters, how a higher level compares with a lower one, and what each does with every call |
| `HttpChunked` | the incremental decoder for chunked HTTP bodies, against a one-shot decoder |
| `Lists`, `ListMap`, `ListOps`, `ListFind`, `ListSort` | the intrusive doubly linked list and the hashed map: pointers, counts, bounds, walking, lookup, sorting |
| `ExpectMatch`, `Expect` | expect dialogs: one matcher, and many of them on one stream |
| `SecureMem`, `Credentials` | the growing store of length-prefixed records, and the credentials kept in it |
| `VpnConfig`, `VpnSettings` | writing and reading the configuration file of a vpn, setting by setting |
| `SslServer` | who may connect to the TLS server, and its loop that relays between clients and their pppd |
| `LineEdit`, `LogRotate`, `Quoting`, `IPMask` | the line editor, log rotation, percent quoting and yEnc, matching of addresses by prefix |
| `Text`, `Bytes`, `Wrappers` | tokens, decimal numbers and comparisons of names; machine integers; a value that may be missing |

Code that changes things in place is modelled in place: classes with the same fields, arrays, loops with the same
steps. Each such method is proved against a function of its inputs or of the old state, and the lemmas are about that
function.

## What is proved

**Seccomp.** For every rule text without quotes, every kernel and every system call, a filter that the kernel takes
returns what the rules say: kill on another architecture, else the action of the first rule that matches, else allow
(`InstalledDecides`). The kernel takes a filter exactly when it is no longer than 4096 instructions, and never one
that the 16-bit length field has cut short (`TakenIff`). The text goes through group expansion, the parsing of
arguments, the check text and relative jumps on its way; each is proved separately. Two rounds of expansion suffice
(`ExpansionCloses`), and a directive means the set of its names (`DirectiveMeansItsNames`). The filter of every
security level is short enough for the kernel (`LevelTaken`), and what that of one level blocks that of every higher
one blocks (`LevelsMonotone`). Severity is lost in two ways only, which are said exactly (`SeverityLostIff`). What
each level's filter returns is said for every call by name, with the bits of its arguments where they matter (the
`...Table` lemmas of `SeccompTable`), and so it is for single directives (`SeccompTexts`). These statements name
calls, numbers and returned values only, and none of the functions that the compiler goes through.

**Chunked bodies.** However a body is cut into fragments, however little room there is for the output, and whatever
calls without input come between the fragments and do no harm, what comes out is the payload
(`FragmentationIndependence`, `WellFormedTransfer`), each chunk's size being the number of its bytes written to the
base 16 (`HexRunOfHex`). Which calls without input do no harm is decided exactly, from what is in the buffer
(`EarlyDrainIff`).

**Lists and maps.** Adding, inserting, deleting and rotating keep a list or map in shape: links inverse to each other,
the last item in the head's `Prev`, counts that add up, every item in the chain its name hashes to, `Side` at an item
or nothing. Walking meets each item once. A lookup, with all its shortcuts, finds what a plain search finds
(`FindTypedItem`), which is the first item of the name asked for, character by character (`SearchIsFirst`). Sorting
ends and gives the stable sorted order, and when the sorted list is in full shape again is said exactly (`SortBy`). A
bounded list is a sliding window over everything that was added (`AddEach`).

**Dialogs.** Each dialog watches its part of the stream as if it were alone (`DialogAlone`); which texts never make it
miss an occurrence is decided exactly (`ExactIffWatchable`); order, replies and the result follow.

**Stores, files, connections.** The secure store is a faithful log and a lookup in it is the plain search. A saved
configuration comes back, and exactly when it does not is said for every value, for paths, for the su flags and for
what follows a timeout, whoever reads it. The TLS server's connections are always the listener and disjoint pairs of
admitted clients and their pppds, each side having been sent exactly what the other received. The line editor is a
text split at its cursor. However much is written to a log, its generations hold the last logs and nothing is lost but
the oldest (`WriteAll`). Quoting and yEnc restore exactly under the conditions given, and prefixes match as they
should.

## Where the code differs from what one would expect

- A higher security level may deny what a lower one kills: `paranoid` kills a process that calls link, linkat, symlink
  or symlinkat, and every level from `user` to `paranoid` one that calls mknod, while `worker` and `memworker` only
  deny these calls. For no other call and no other two levels is it so (`SeverityLostIff`).
- `chmod(exec)`, which `user` denies, looks at the third argument. Only fchmodat has its mode there: of chmod, fchmod
  and creat an argument that they do not have is tested (`ModeWords`, `CreatWords`, `KillsChmodExec`). A word that a call does
  not know asks for nothing, so `open(foo)` is every open (`OpenWords`). Behind socketcall a family is not tested
  (`KillsFamilies`).
- `noshm` and `nomsgq` add no blank behind their directive, so that of the next word is glued on: `noshm nonet` is one
  directive for a group that there is none of (`GluesOn`, `GluedDirective`).
- The lowest level means to kill what loads kernel modules, but names `group:kern_mods` where the table has
  `group:kern_mod`: every level allows these calls (`EveryLevelAllowsModules`).
- A chunked decoder call without input in the middle of a size line takes the line as complete
  (`EarlyDrainGoesWrong`). It does no harm exactly when a chunk is pending, the line is complete, or the line with a `1`
  appended to it still names 0 (`EarlyDrainIff`): then it names no size however it goes on (`NamesNothingIff`).
- Inserting behind one of the first items of a list that is over its bound frees that node and then links to it. The
  node survives exactly when it is the head or has at least as many items in front of it as are evicted
  (`SurvivesIff`).
- An expect dialog falls back to its first character only: "aab" is missed in "aaab" (`AabIsMissed`). A byte above 127
  in an expected string never matches, since it is compared as a signed `char`.
- `ListSwapItems` does not make the head's `Prev` the new last item when the last two items are swapped. A sorted list
  is in full shape again exactly when no item in front of the one that was last has to go behind it
  (`ShapeAfterSort`); two items in the wrong order are the simplest list for which it is not (`SwappedPair`).
- An empty record ends a walk over the secure store early (`WalkIsWhole`). A lookup of credentials with an empty realm
  or user finds nothing; `libUseful-bundled/ConnectionChain.c:168` asks with an empty realm. A secret is handed out
  with its colons quoted.
- A configured value comes back exactly when it has no line end, no blank that is neither in quotes nor behind a
  backslash, no white space at its end and no quotes around it (`ValueComesBack`). A password with a blank in it is cut
  at the blank, and one that starts and ends with a quote loses both.
- No line end is written behind `Timeout=`, so the setting behind it is lost, and comes back exactly when the reader
  has it already (`SwitchesComeBack`). When both su and sudo are allowed on a side nothing is written for it, and what
  the reader starts with stays (`SideComesBack`). Root starts without the two flags of its own end, others with them
  (`FromStart`).
- The manual's example policy `ip:<list>` is none that the server knows, and lets nobody in (`IpIsNoPolicy`).
  `ip-only:` still asks for a certificate with a name, though the manual says that no valid one is needed.
- Home does nothing when the cursor is at the end of the line (`HomeAtEndStays`), and going up in an empty history
  clears the line (`UpInEmptyHistory`). Keys whose code ends in a zero byte, such as the one for a web browser, make the
  editor's length one too large.
- The path for rotated logs is asked of a stream that has been closed, so the log's own path is always used.
- Percent-quoting a listed byte above 127 prints it as a negative number (`RestoresIffReversible`).
- Expansion keeps the first round's text in front of the second's; `group:filesystem:pipe` and other names that no
  table has are skipped, as unknown calls are.

## What is taken as given

- System call numbers, the architecture and the socket calls of a kernel are parameters (`Platform`, `Kernel`); what
  is said of calls by their names asks that different calls have different numbers. The users of the system, the home
  directory, the page size and the reading of durations are parameters.
- Words are 32 or 64 bits and little-endian, `char` is signed, as on the machines the code is built for. In `IPMask` a
  word is the sequence of its bits.
- Rule texts and the lists and policies that are split into tokens have no quotes and no backslashes in them. Values
  of the configuration are any text; what the tokenizer makes of backslashes in a name is a parameter.
- That the kernel takes a program which its check accepts is a parameter; the check is that of classic BPF, with at
  most 4096 instructions.
- Reading past the data of the chunk decoder's buffer is taken to find neither a carriage return nor a line feed. The
  precondition of a call leaves out the one for which the code computes a negative length: no input, and a size line
  that neither a line feed nor a carriage return ends and that names a size.
- In a lookup, items of one name stand together in their chain, a map that caches is case-sensitive, and a list that
  is marked as having unique names has them.
- Accepting a client and starting its pppd succeed; opening, renaming and removing files do, when there is such a
  file. A log file is there when its size is asked for.

## Model

| member | source | states |
|---|---|---|
| Text.StrtolOfFormat | libUseful-bundled/Seccomp.c:690-729 | reading a printed int back gives the int and leaves what follows, for every int and any text that does not start with a digit |
| Text.TokensConcat | libUseful-bundled/Tokenizer.c:385-446 | behind a closed list, appended text makes tokens of its own |
| Text.TokensOfJoin | libUseful-bundled/Tokenizer.c:385-446 | splitting a joined list of non-empty names gives the names back |
| Text.TokensAppend | libUseful-bundled/StringList.c:48-54 | appending to a list adds exactly one token, after an empty one if the list ended in the separator |
| Text.TokensStand | libUseful-bundled/Tokenizer.c:385-446 | a text that is not empty is a token exactly when it has no separator in it and stands between two, or at an end |
| Text.CaseOfLetters | libUseful-bundled/String.c:130-141 | two texts compare equal without case exactly when each character is the same, or the same letter of the alphabet |
| Text.StrtolOfLarge | libUseful-bundled/Seccomp.c:690-729 | a number too large for an int loses its high bits, one too large for a long becomes -1 |
| Text.StrtolSkips | libUseful-bundled/Seccomp.c:690-729 | white space and a plus sign in front of a number count for nothing |
| Text.DecimalForm | libUseful-bundled/Seccomp.c:829-840 | what a printed number looks like, digit by digit |
| SeccompRules.FirstMatchUniform | libUseful-bundled/Seccomp.c:732-790 | among rules of one action the first match is that action if any rule matches |
| SeccompRules.DirectiveOrderIsFree | libUseful-bundled/Seccomp.c:1134-1152 | one directive's rules can be reordered and repeated without changing what any rule list around them decides |
| SeccompRules.TighteningKeepsBlocks | libUseful-bundled/Seccomp.c:1155-1176 | rules put in front that only tighten never turn a denied or killed call into an allowed one |
| SeccompArgs.WordsOfArgs | libUseful-bundled/Seccomp.c:829-840 | the check text splits back into the words of its checks |
| SeccompArgs.GetArgOfCheck | libUseful-bundled/Seccomp.c:690-729 | one step of parsing recovers the type, position and value of the check that was printed, and the rest of the text |
| SeccompCompile.EmitSyscallIsCompileRule | libUseful-bundled/Seccomp.c:732-790 | the instructions emitted from the check text, with its decreasing jump counter, are those of the abstract rule |
| SeccompCompile.RunRule | libUseful-bundled/Seccomp.c:732-790 | a rule's block returns the rule's verdict when number and all checks match, and otherwise every failing jump lands exactly on what follows the block |
| SeccompCompile.RunRules | libUseful-bundled/Seccomp.c:732-810 | the blocks together return the verdict of the first rule that matches |
| SeccompCompile.ProgramCorrect | libUseful-bundled/Seccomp.c:652-810 | for all rules and all system calls the program halts in range: kill on another architecture, else the first match, else allow |
| SeccompCompile.ProgramLength | libUseful-bundled/Seccomp.c:652-810 | 4 instructions, and 3 + 2n for a rule of n checks |
| SeccompCompile.ProgramTaken | libUseful-bundled/Seccomp.c:652-810 | a whole program passes the kernel's check exactly when it has at most 4096 instructions: every load and jump stays in range |
| SeccompCompile.CutRefused | libUseful-bundled/Seccomp.c:793-810 | a program that is cut short anywhere does not pass: it ends without a return, or a jump leads behind its end |
| SeccompGroups.TwoRoundsClose | libUseful-bundled/Seccomp.c:559-611 | what two rounds of lookup reach is closed under a third |
| SeccompGroups.MembersAreSettled | libUseful-bundled/Seccomp.c:559-611 | every member of a group stands for itself, and its own members for themselves alone |
| SeccompExpand.ExpandOnceTokens | libUseful-bundled/Seccomp.c:1101-1117 | one round of expansion lists, for every token, the members of its group or the token itself |
| SeccompExpand.ExpandNamesOf | libUseful-bundled/Seccomp.c:1120-1131 | the names in an expanded list are those that two rounds of lookup reach, although the first round's text stays in it |
| SeccompExpand.ExpansionCloses | libUseful-bundled/Seccomp.c:1120-1131 | expanding an expanded list finds no further name and loses none |
| SeccompNames.RulesOfParsed | libUseful-bundled/Seccomp.c:829-1055 | every rule that comes out of a configuration has at most three checks, on arguments the kernel passes |
| SeccompNames.DirectiveMeansItsNames | libUseful-bundled/Seccomp.c:1079-1152 | a directive decides by the set of names it comes down to, whatever their order and repetitions |
| SeccompFilter.Filter.constructor | libUseful-bundled/Seccomp.c:21 | an empty program |
| SeccompFilter.Filter.AddStmt | libUseful-bundled/Seccomp.c:616-623 | one instruction more, counted |
| SeccompFilter.Filter.AddJump | libUseful-bundled/Seccomp.c:626-634 | one jump more, its operand cut to 32 bits and its offsets to 8 |
| SeccompFilter.Filter.AddArchCheck | libUseful-bundled/Seccomp.c:652-664 | the three instructions of the architecture test |
| SeccompFilter.Filter.CountJump | libUseful-bundled/Seccomp.c:667-687 | the loop over the words of the check text counts 1 + 2 for each word |
| SeccompFilter.Filter.AddArgs | libUseful-bundled/Seccomp.c:732-790 | the loop over the parsed checks emits two instructions for each, with the jump going down by two |
| SeccompFilter.Filter.AddSyscall | libUseful-bundled/Seccomp.c:732-790 | the emitted block is that of the call's number, its checks and its action |
| SeccompFilter.Filter.AddSyscallNames | libUseful-bundled/Seccomp.c:1079-1098 | one block for every name that is known, none for one that is not |
| SeccompFilter.Filter.AddSyscallGroup | libUseful-bundled/Seccomp.c:1134-1152 | the blocks of the expanded name list |
| SeccompFilter.Filter.Setup | libUseful-bundled/Seccomp.c:1155-1176 | for a text without quotes: the architecture test and then the blocks of every directive, unknown directives skipped |
| SeccompFilter.Filter.Commit | libUseful-bundled/Seccomp.c:793-810 | the final action is appended, the program handed over with its length in 16 bits, and the result is whether the kernel takes it |
| SeccompFilter.Filter.AddRules | libUseful-bundled/Seccomp.c:1180-1187 | success means that the whole program of the text is installed, and with a willing kernel it comes exactly for programs of up to 4096 instructions |
| SeccompFilter.HandedWhole | libUseful-bundled/Seccomp.c:793-810 | the whole program is handed over exactly when it is shorter than 65536 instructions |
| SeccompFilter.PairsOfWords | libUseful-bundled/Seccomp.c:1155-1176 | the words of a rule text end at blanks, tabs and line ends, and white space behind those is skipped |
| SeccompFilter.PairOfText | libUseful-bundled/Seccomp.c:1155-1176 | what is in front of the first equals sign is the name of a directive, the rest its value, without white space at the end |
| SeccompFilter.TakenIff | libUseful-bundled/Seccomp.c:793-810 | what is handed over passes the kernel's check exactly when the whole program has at most 4096 instructions, and then it is the whole program |
| SeccompFilter.InstalledDecides | libUseful-bundled/Seccomp.c:652-810 | for every rule text without quotes and every system call, a filter that passes the kernel's check returns what the rules of the text decide |
| SeccompFilter.InstalledLength | libUseful-bundled/Seccomp.c:793-810 | the length of the program of a text, from its rules |
| SeccompLevels.FallThrough | libUseful-bundled/Process.c:489-543 | falling through the cases appends the directives of the level entered and of all below it |
| SeccompLevels.ParseSecurity | libUseful-bundled/Process.c:419-565 | the loop over the words of a configuration, split at blanks and plus signs, builds the rule text and the flags that the words stand for |
| SeccompLevels.LevelWord | libUseful-bundled/Process.c:419-565 | a configuration of one level word adds the text of its level and nothing else |
| SeccompLevels.PairsOfRender | libUseful-bundled/Seccomp.c:1155-1176 | the directives of a level text are read back as they were written |
| SeccompLevels.WordsAreKnown | libUseful-bundled/Process.c:421-437 | each word of a security configuration is known in any case, and taken for no other |
| SeccompLevels.NetworkTexts | libUseful-bundled/Process.c:440-459 | what `client`, `nonet` and `killnet` add, letter for letter |
| SeccompLevels.ProcessTexts | libUseful-bundled/Process.c:465-472 | what `killexec` and `nopid` add |
| SeccompLevels.NoExecText | libUseful-bundled/Process.c:461-463 | what `noexec` adds |
| SeccompLevels.MessageTexts | libUseful-bundled/Process.c:473-484 | what `noshm`, `nomsgq` and `noipc` add |
| SeccompLevels.LocalText | libUseful-bundled/Process.c:446-449 | what `local` adds |
| SeccompLevels.ModifierContainers | libUseful-bundled/Process.c:440-484 | which parts of the process these words keep apart from the system |
| SeccompLevels.OwnRules | libUseful-bundled/Process.c:546-552 | a word that is a rule itself passes through with a blank behind it |
| SeccompLevels.GluesOn | libUseful-bundled/Process.c:473-479 | `noshm` and `nomsgq` leave no blank behind, so the text of the next word is glued on |
| SeccompLevels.GluedDirective | libUseful-bundled/Process.c:473-479 | `noshm nonet` is one directive, for a group that there is none of |
| SeccompFamilies.CallTableFamily | libUseful-bundled/Seccomp.c:559-611 | the variants of a call are of its family, but for what `chmod(exec)` stands for |
| SeccompFamilies.ReachedFits | libUseful-bundled/Seccomp.c:1101-1131 | what a directive's names come down to after two rounds is of the families that its names are of |
| SeccompFamilies.LevelFits | libUseful-bundled/Process.c:489-543 | every directive of every level kills, or denies or allows, calls of the families listed for that level only |
| SeccompInstalled.ExpandCount | libUseful-bundled/Seccomp.c:1101-1131 | an expanded list has at most the names of its first round, and two tokens for each name that only the second round finds |
| SeccompInstalled.FilesCount | libUseful-bundled/Seccomp.c:559-611 | the directive that denies the file calls comes to at most 190 rules, its second round of names included |
| SeccompInstalled.LevelCount | libUseful-bundled/Process.c:489-543 | a bound on the rules of each level: 27 for the lowest, 364 for the highest |
| SeccompInstalled.LevelTaken | libUseful-bundled/Seccomp.c:793-810 | on every kernel the filter of every level has at most 3280 instructions, is handed over whole, and passes the kernel's check |
| SeccompInstalled.LevelDecides | libUseful-bundled/Process.c:489-543 | the filter that is handed over for a level decides as the level's rules do |
| SeccompMonotone.LevelOrigin | libUseful-bundled/Process.c:489-543 | every rule of a level is for a call of a family that some level up to this one kills, or else denies or allows |
| SeccompMonotone.LevelTightens | libUseful-bundled/Process.c:489-543 | what a level adds only tightens what is below it, the ioctls that it allows included |
| SeccompMonotone.LevelsMonotone | libUseful-bundled/Process.c:489-543 | for every system call: what the filter handed over for one level blocks, that of every higher level blocks |
| SeccompMonotone.LevelWordsMonotone | libUseful-bundled/Process.c:419-565 | the same for the filters that are handed over for two level words as a user writes them |
| SeccompSeverity.SeverityLostIff | libUseful-bundled/Process.c:489-543 | a lower level kills a call and a higher one does not exactly when the higher is `worker` or `memworker`, and the lower is `paranoid` and the call makes a link, or is `user` to `paranoid` and the call is mknod |
| SeccompSeverity.SeverityIsNotMonotone | libUseful-bundled/Process.c:500-506 | link, killed under `paranoid` and denied under `worker` |
| SeccompSeverity.EveryLevelAllowsModules | libUseful-bundled/Process.c:539-541 | no level blocks a call that loads or removes kernel modules, on any kernel |
| SeccompCalls.DirectiveVerdict | libUseful-bundled/Seccomp.c:1134-1187 | the installed filter of one directive, for any list of names: kill on another architecture, the directive's value when one of the names it comes down to is for the call and what it asks of the arguments holds, else allow |
| SeccompCalls.OneArgument | libUseful-bundled/Seccomp.c:1035-1055 | a name with one word in parentheses is the call in front of them with the checks of that word |
| SeccompCalls.TwoArguments | libUseful-bundled/Seccomp.c:997-1055 | with two words, the checks of both, of which the second only counts if it is a number |
| SeccompCalls.ProtectionWords | libUseful-bundled/Seccomp.c:870-886 | mmap, mmap2 and mprotect: `exec` asks for bit 2 of the third argument; any other word asks for nothing |
| SeccompCalls.OpenWords | libUseful-bundled/Seccomp.c:927-951 | open and open2, for every word in any case: which bits of the second and the third argument it asks for |
| SeccompCalls.OpenatWords | libUseful-bundled/Seccomp.c:954-978 | openat and openat2: the same one argument further on |
| SeccompCalls.CreatWords | libUseful-bundled/Seccomp.c:917-924 | creat: bits of its second argument, which is its mode, and of a third that it does not have |
| SeccompCalls.ModeWords | libUseful-bundled/Seccomp.c:889-915 | chmod, fchmod, lchmod and fchmodat: bits of the third argument |
| SeccompCalls.IoctlWords | libUseful-bundled/Seccomp.c:980-985 | ioctl: the requests for reading and writing a terminal's settings |
| SeccompCalls.SocketWords | libUseful-bundled/Seccomp.c:813-822 | socket and socketpair: the number of the family, and -1 for a word that is none |
| SeccompCalls.SocketcallWords | libUseful-bundled/Seccomp.c:524-557 | socketcall: the number of the socket call |
| SeccompCalls.NumberWords | libUseful-bundled/Seccomp.c:842-1012 | a number is compared with the first argument, and one behind it with the third |
| SeccompTexts.KillsOpen | libUseful-bundled/Seccomp.c:927-938 | `open(create)`, `open(write)`, `open(suid)`, `open(exec)`: exactly the bits with which the installed filter kills the call, in numbers |
| SeccompTexts.KillsOpenat | libUseful-bundled/Seccomp.c:954-965 | the same for openat |
| SeccompTexts.KillsCreat | libUseful-bundled/Seccomp.c:917-924 | the same for creat |
| SeccompTexts.KillsFchmodat | libUseful-bundled/Seccomp.c:910-915 | `fchmodat(exec)` and `fchmodat(suid)` |
| SeccompTexts.KillsChmodExec | libUseful-bundled/Seccomp.c:559-611 | `chmod(exec)`, for each of the nine calls that the table lists under it |
| SeccompTexts.KillsMmap | libUseful-bundled/Seccomp.c:876-886 | `mmap(exec)` kills mmap and mmap2 exactly when bit 2 of the low word of the third argument is set |
| SeccompTexts.KillsMprotect | libUseful-bundled/Seccomp.c:870-874 | so does `mprotect(exec)` mprotect |
| SeccompTexts.KillsIoctl | libUseful-bundled/Seccomp.c:980-985 | `ioctl(termget)` and `ioctl(termset)`, by the numbers of the requests |
| SeccompTexts.KillsSocket | libUseful-bundled/Seccomp.c:857-861 | `socket(ip6)` and `socket(bt)`, by the numbers of the families |
| SeccompTexts.KillsSocketpair | libUseful-bundled/Seccomp.c:863-867 | `socketpair` with each of the families |
| SeccompTexts.KillsFamilies | libUseful-bundled/Seccomp.c:559-611 | `socket(unix)`, `socket(ip)` and `socket(packet)`, with what the table adds to them: behind socketcall the family is not tested |
| SeccompTexts.KillsSocketcall | libUseful-bundled/Seccomp.c:851-855 | `socketcall` with each of the socket calls |
| SeccompGroupTexts.BareVerdict | libUseful-bundled/Seccomp.c:1134-1187 | a directive for a call without parentheses acts on exactly that call |
| SeccompGroupTexts.GroupVerdict | libUseful-bundled/Seccomp.c:1134-1187 | a directive for a group of calls that stand for themselves acts on exactly those |
| SeccompGroupTexts.OpenAndForkCalls | libUseful-bundled/Seccomp.c:559-611 | the calls of `group:open` and `group:fork`, by name |
| SeccompGroupTexts.UserCalls | libUseful-bundled/Seccomp.c:559-611 | those of `group:uid` and `group:ugid` |
| SeccompGroupTexts.MountAndRootCalls | libUseful-bundled/Seccomp.c:559-611 | those of `group:mount` and `group:chroot` |
| SeccompGroupTexts.KillAndTimeCalls | libUseful-bundled/Seccomp.c:559-611 | those of `group:kill` and `group:settime` |
| SeccompGroupTexts.SwapAndNamespaceCalls | libUseful-bundled/Seccomp.c:559-611 | those of `group:swap` and `group:ns` |
| SeccompGroupTexts.AdminAndKeyCalls | libUseful-bundled/Seccomp.c:559-611 | those of `group:sysadmin` and `group:keyring` |
| SeccompGroupTexts.SharedAndTraceCalls | libUseful-bundled/Seccomp.c:559-611 | those of `group:shm` and `group:ptrace` |
| SeccompGroupTexts.ModuleAndExecCalls | libUseful-bundled/Seccomp.c:559-611 | those of `group:kern_mod` and `group:exec` |
| SeccompGroupTexts.KexecAndSemaphoreCalls | libUseful-bundled/Seccomp.c:559-611 | those of `group:kexec` and `group:sem` |
| SeccompGroupTexts.MessageAndIpcCalls | libUseful-bundled/Seccomp.c:559-611 | those of `group:msgq` and `group:ipc` |
| SeccompTable.MemWorkerTable | libUseful-bundled/Process.c:503-504 | what the filter of `memworker` returns for every call: the calls that it kills, by name, and `worker` for all others |
| SeccompTable.WorkerTable | libUseful-bundled/Process.c:507-508 | `worker`: the thirty calls that it denies, by name, and `paranoid` for all others |
| SeccompTable.ParanoidTable | libUseful-bundled/Process.c:511-512 | `paranoid`: the calls that it kills, and `high` for all others |
| SeccompTable.HighTable | libUseful-bundled/Process.c:515-516 | `high`: the calls that it denies, and `constrained` for all others |
| SeccompTable.ConstrainedTable | libUseful-bundled/Process.c:519-520 | `constrained`: the two ioctls that it allows, the calls that it kills, memory to be executed by its bit among them, and `untrusted` for all others |
| SeccompTable.UntrustedTable | libUseful-bundled/Process.c:523-524 | `untrusted`: the calls that it kills and denies, and `guest` for all others |
| SeccompTable.GuestTable | libUseful-bundled/Process.c:527-528 | `guest`: the calls that it denies, and `user` for all others |
| SeccompTable.UserTable | libUseful-bundled/Process.c:531-532 | `user`: the calls that it denies, those that make files executable by their bits, the calls that it kills, and `basic` for all others |
| SeccompTable.BasicTable | libUseful-bundled/Process.c:535-536 | `basic`: the calls that it denies, and `minimal` for all others |
| SeccompTable.MinimalTable | libUseful-bundled/Process.c:539-541 | `minimal`: the calls that it denies and kills, and all others allowed |
| SeccompTable.GroundIs | libUseful-bundled/Process.c:489-500 | without a level everything is allowed |
| SeccompTable.ExecutableMemory | libUseful-bundled/Process.c:503-520 | from `constrained` on every level kills mmap, mmap2 and mprotect when bit 2 of the third argument is set |
| HttpChunked.HTTPChunk.Append | libUseful-bundled/HttpChunkedTransfer.c:34-43 | the input goes behind what is buffered |
| HttpChunked.HTTPChunk.MoveDown | libUseful-bundled/HttpChunkedTransfer.c:83-105 | what is left moves to the front of the buffer |
| HttpChunked.HTTPChunk.HeaderBounds | libUseful-bundled/HttpChunkedTransfer.c:55-75 | where the size line starts and ends in the buffer |
| HttpChunked.HTTPChunk.TakeHeader | libUseful-bundled/HttpChunkedTransfer.c:55-89 | a complete size line is read and taken out, an incomplete one stays |
| HttpChunked.HTTPChunk.Send | libUseful-bundled/HttpChunkedTransfer.c:93-108 | as many bytes go out as the chunk, the buffer and the caller's room allow |
| HttpChunked.HTTPChunk.Read | libUseful-bundled/HttpChunkedTransfer.c:27-111 | one call on the array buffer is one step of the abstract decoder |
| HttpChunked.OutputFits | libUseful-bundled/HttpChunkedTransfer.c:93-108 | no call returns more than it was given room for |
| HttpChunked.ReadKeeps | libUseful-bundled/HttpChunkedTransfer.c:27-111 | a call's output, and the one-shot decoding of what is left, are the one-shot decoding of what was there before |
| HttpChunked.NamesNothingIff | libUseful-bundled/HttpChunkedTransfer.c:55-75 | a size line names 0 however it goes on exactly when it does with a single digit `1` behind it |
| HttpChunked.EarlyDrainIff | libUseful-bundled/HttpChunkedTransfer.c:55-75 | a call without input keeps that account for all that may still come exactly when a chunk is pending, a whole size line is there, or the line, with a `1` behind it, still names 0 |
| HttpChunked.DeliveriesKeep | libUseful-bundled/HttpChunkedTransfer.c:27-111 | so does a whole run of calls in which calls without input come only where they do no harm |
| HttpChunked.FragmentationIndependence | libUseful-bundled/HttpChunkedTransfer.c:27-111 | for every body the one-shot decoder accepts, every split into fragments, every positive room and all harmless calls in between: the output up to the close is the payload, and enough draining calls reach the close |
| HttpChunked.FragmentsThenDrains | libUseful-bundled/Stream.c:1700-1720 | fragments first and calls without input behind them is always such a run |
| HttpChunked.HexRunOfHex | libUseful-bundled/HttpChunkedTransfer.c:77 | reading a number written to the base 16, in either case and with any zeros in front, gives that number |
| HttpChunked.SizeForms | libUseful-bundled/HttpChunkedTransfer.c:77 | what strtol makes of every size line that starts with a number: white space, signs, "0x", numbers that are too large, negative ones |
| HttpChunked.ChunkBytes | libUseful-bundled/HttpChunkedTransfer.c:55-89 | the bytes of a chunk |
| HttpChunked.DecodeBody | libUseful-bundled/HttpChunkedTransfer.c:55-89 | the one-shot decoder returns the payload of every body of section 7.1 of RFC 9112, each size being the number of its data bytes written to the base 16 |
| HttpChunked.WellFormedTransfer | libUseful-bundled/HttpChunkedTransfer.c:27-111 | so every well-formed body, however cut up, is delivered exactly |
| HttpChunked.EarlyDrainGoesWrong | libUseful-bundled/HttpChunkedTransfer.c:61-67 | a call without input in the middle of a size line is taken for the end of the line: a body for which the output is wrong |
| Lists.AddToCount | libUseful-bundled/List.c:202-247 | the count of the list changes by one, and for a chain the map's with it |
| Lists.LinkIn | libUseful-bundled/List.c:250-271 | the pointers after threading are those of the longer list, its last item in the head's Prev |
| Lists.ThreadNode | libUseful-bundled/List.c:250-271 | the list is the old one with the node behind the given one; counts, names and contents are right |
| Lists.LinkOut | libUseful-bundled/List.c:274-304 | the pointers after unthreading are those of the shorter list; Side no longer refers to the node |
| Lists.UnThreadNode | libUseful-bundled/List.c:274-304 | the list is the old one without the node, which stands alone |
| ListMap.ListCreate | libUseful-bundled/List.c:44-57 | a new list is an empty list in good shape |
| ListMap.MapCreate | libUseful-bundled/List.c:65-94 | a new map has empty chains, at most 65534, and a blank node behind them |
| ListMap.NextChain | libUseful-bundled/List.c:661-683 | the first item of the next chain that has one |
| ListMap.FirstItem | libUseful-bundled/List.c:690-713 | the walk starts at the first item of all |
| ListMap.GetNext | libUseful-bundled/List.c:690-713 | the next item of the chain, else the first of a later chain |
| ListMap.Visit | libUseful-bundled/List.c:661-713 | walking from the root meets every item exactly once, chain by chain |
| ListMap.RootCount | libUseful-bundled/List.c:20-27 | the root's count is the number of items, for a list and for a map |
| ListMap.HashSteps | libUseful-bundled/GeneralFunctions.c:147-157 | the hash that chooses the chain is FNV-1 of 32 bits |
| ListMap.ThreadIn | libUseful-bundled/List.c:250-271 | threading keeps a whole list or map in shape, every item in the chain its name hashes to |
| ListMap.ThreadOut | libUseful-bundled/List.c:274-304 | so does unthreading |
| ListOps.HandleMaxSize | libUseful-bundled/List.c:387-406 | at most three of the oldest items go, as many as it takes to come down to the bound |
| ListOps.InsertTypedItem | libUseful-bundled/List.c:409-441 | the new item stands behind the given one, after the bound has evicted what it does; the given one is not evicted |
| ListOps.SurvivesIff | libUseful-bundled/List.c:387-421 | the node behind which an item is inserted is still there exactly when it is the head or stands behind the items that are evicted |
| ListOps.GetLast | libUseful-bundled/List.c:729-738 | the last item, or the head of an empty list |
| ListOps.AddTypedItem | libUseful-bundled/List.c:444-455 | in a list that is not kept in order the new item is the last of the chain for its name; every other chain is as it was |
| ListOps.DeleteNode | libUseful-bundled/List.c:888-900 | the node is gone, its contents are returned, all else is as it was |
| ListOps.Rotate | libUseful-bundled/List.c:903-917 | the items are turned by k modulo their number |
| ListOps.AddIsAddOne | libUseful-bundled/List.c:387-441 | adding to a chain is one bounded add on its items |
| ListOps.BoundedListIsWindow | libUseful-bundled/List.c:117-125 | from the empty list, any adds leave exactly the last min(n, Max + 1) items in order |
| ListOps.AddToList | libUseful-bundled/List.c:444-455 | one add to a plain list is one bounded add on what its items hold |
| ListOps.AddEach | libUseful-bundled/List.c:117-125 | after any number of adds a plain list holds the last Max + 1 entries in order, and without a bound all of them |
| ListOps.LongListShrinks | libUseful-bundled/List.c:387-406 | a longer list loses two with each add until Max + 1 are left |
| ListOps.LongListSettles | libUseful-bundled/List.c:387-406 | and then holds the last Max + 1 items |
| ListFind.FindInChain | libUseful-bundled/List.c:461-554 | in a list without order and time-outs the tail, the cached item and the walk lead to a namesake or past every item in front of one |
| ListFind.FindInsertPoint | libUseful-bundled/List.c:484-554 | the same from the root of a list or map, in the chain for the name |
| ListFind.Rewind | libUseful-bundled/List.c:581-586 | back over the namesakes to the first of them |
| ListFind.Scan | libUseful-bundled/List.c:588-628 | forward, into later chains, to the first item of the name and type, or past all of them |
| ListFind.LookUp | libUseful-bundled/List.c:558-632 | where the item found stands, that nothing fits in front of it, and that Side is that item and in its chain |
| ListFind.SearchFinds | libUseful-bundled/List.c:558-632 | nothing fitting in front, the plain search over all chains finds the same item |
| ListFind.SearchIsFirst | libUseful-bundled/List.c:588-628 | what the plain search answers, character by character: the first item of that name, with or without regard to case, and of that type, or null when there is none |
| ListFind.FindTypedItem | libUseful-bundled/List.c:558-638 | the lookup returns what a plain search of all items returns, for lists and for case-sensitive maps |
| ListSort.SwapRightsOne | libUseful-bundled/List.c:781-807 | swapping neighbours in the wrong order removes exactly one inversion |
| ListSort.SwapItems | libUseful-bundled/List.c:781-807 | the chain after a swap; the head's Prev follows only the first of the two, so it is left behind at the end of the list |
| ListSort.TailStep | libUseful-bundled/List.c:791-795 | through any swap that a sort makes, the head's Prev is the last item exactly when that is still the item that was last |
| ListSort.Pass | libUseful-bundled/List.c:818-832 | a pass ends; either it swapped nothing and neighbours are in order, or there are fewer inversions |
| ListSort.LastStays | libUseful-bundled/List.c:810-835 | the item that was last ends up last exactly when no item in front of it has to go behind it |
| ListSort.ShapeAfterSort | libUseful-bundled/List.c:781-835 | a sorted list is in full shape, its last item in the head's Prev, exactly then |
| ListSort.SortBy | libUseful-bundled/List.c:810-835 | the passes end, the chain is the sorted rearrangement that keeps the order of equals, and the list is in full shape exactly when nothing in front of the last item has to go behind it |
| ListSort.Sort | libUseful-bundled/List.c:810-835 | the same for a comparison of contents, under any strict weak order |
| ListSort.SwappedPair | libUseful-bundled/List.c:781-835 | two items in the wrong order: sorted, their list is not in full shape |
| ListSort.NamesAreOrdered | libUseful-bundled/String.c:103-114 | the comparison of names is a strict weak order |
| ListSort.CompareIsOrder | libUseful-bundled/String.c:103-114 | one name compares smaller than another exactly when at the first difference it ends or has the smaller character |
| ListSort.SortNamedItems | libUseful-bundled/List.c:837-863 | descending names, namesakes in their old order, and in full shape exactly when no name in front of the last is smaller |
| ExpectMatch.WatchIsHonest | libUseful-bundled/Expect.c:73-81 | what a dialog has matched is the end of the text, and success means an occurrence |
| ExpectMatch.ExactIffWatchable | libUseful-bundled/Expect.c:73-81 | a dialog notices the first occurrence in every text exactly when its string is not empty, has no byte above 127, and no mismatch in it leaves a longer start behind |
| ExpectMatch.FirstCharacterOnce | libUseful-bundled/Expect.c:73-75 | in particular when the first character does not come again |
| ExpectMatch.AabIsMissed | libUseful-bundled/Expect.c:73-75 | "aab" is not noticed in "aaab" |
| Expect.ExpectDialog.constructor | libUseful-bundled/Expect.c:10-20 | a new dialog has matched nothing |
| Expect.ExpectDialog.HearChar | libUseful-bundled/Expect.c:73-81 | the counter against one character |
| Expect.ShowChar | libUseful-bundled/Expect.c:65-102 | one character shown to the dialogs in order, up to the first pending mandatory one or one that ends the conversation |
| Expect.DialogsDone | libUseful-bundled/Expect.c:32-46 | whether every mandatory dialog is done |
| Expect.STREAMExpectDialog | libUseful-bundled/Expect.c:49-113 | the dialogs, replies and result are those of the conversation over what was heard, nothing is read beyond its end, and the timeout is put back |
| Expect.DialogAlone | libUseful-bundled/Expect.c:65-102 | each dialog has watched exactly the text from where it was opened, as if it were alone |
| Expect.DoneMeansSeen | libUseful-bundled/Expect.c:75-81 | a dialog marked done occurred in the text from where it was opened |
| Expect.SeenMeansDone | libUseful-bundled/Expect.c:73-81 | for a watchable string the other way round, too |
| Expect.InOrder | libUseful-bundled/Expect.c:99-101 | mandatory dialogs are done in list order on parts of the text that do not overlap |
| Expect.RepliesOnce | libUseful-bundled/Expect.c:78-87 | exactly the dialogs done have replied, each once |
| Expect.EndedByDialog | libUseful-bundled/Expect.c:88-95 | an early TRUE comes from a dialog that ends, an early FALSE from one that fails |
| Expect.SuccessIs | libUseful-bundled/Expect.c:107-113 | success is an end that a dialog asked for, or the end of the stream with every mandatory dialog done; a silence never is |
| Expect.HeardUpTo | libUseful-bundled/Expect.c:58-64 | what is heard: characters up to the end of the stream or, with a timeout, up to a silence; other codes are passed over |
| SecureMem.SecureRealloc | libUseful-bundled/SecureMem.c:116-146 | whole pages with room to spare, the old contents kept, never smaller than before |
| SecureMem.SecureStore.constructor | libUseful-bundled/SecureMem.c:168-180 | an empty store |
| SecureMem.SecureStore.Add | libUseful-bundled/SecureMem.c:196-212 | the log is the old one and one record more; earlier records are as they were |
| SecureMem.SecureStore.GetNext | libUseful-bundled/SecureMem.c:215-234 | the length and place of the next record, or nothing at the end |
| SecureMem.SecureStore.Walk | libUseful-bundled/SecureMem.c:415-432 | the usual loop meets the records in order, up to the first empty one |
| SecureMem.WalkIsWhole | libUseful-bundled/SecureMem.c:215-234 | it meets all of them exactly when none is empty |
| Credentials.QuotedPrefix | libUseful-bundled/String.c:687-723 | a quoted text starts with another exactly when the texts do |
| Credentials.QuotedIsItself | libUseful-bundled/String.c:687-723 | what is handed out is the secret as it was added exactly when that has no colon |
| Credentials.StoredForm | libUseful-bundled/SecureMem.c:328-341 | how a line is stored: a backslash in front of every colon, and a colon behind every field |
| Credentials.TraverseUntil | libUseful-bundled/GeneralFunctions.c:123-132 | the scan stops at the first terminator that is not quoted |
| Credentials.Compare | libUseful-bundled/SecureMem.c:397 | the comparison over the length of the query holds exactly when the field starts with it, and stays within the field |
| Credentials.FieldMatch | libUseful-bundled/SecureMem.c:382-405 | a non-empty query that the field starts with, and the place behind the field |
| Credentials.WriteField | libUseful-bundled/SecureMem.c:328-341 | the field and a colon, what is in front untouched |
| Credentials.CredsStore.TryLine | libUseful-bundled/SecureMem.c:415-432 | whether a line is the one asked for, and where its quoted secret lies |
| Credentials.CredsStore.Add | libUseful-bundled/SecureMem.c:353-379 | one entry more in the log |
| Credentials.CredsStore.Lookup | libUseful-bundled/SecureMem.c:407-435 | the quoted secret of the first entry whose realm and user start with the non-empty ones asked for, or nothing |
| Credentials.FindIsFirst | libUseful-bundled/SecureMem.c:382-435 | what a lookup finds, in plain terms: the first entry whose realm and user begin with those asked for, neither being empty |
| VpnConfig.PathSurvives | vpn_config.c:5-16 | a path survives saving and reading exactly when, in case it starts with `~/` itself, that is how the home directory starts |
| VpnConfig.SaveFilePath | vpn_config.c:107-122 | a path under the home directory is written relative to it |
| VpnConfig.WriteConfig | vpn_config.c:126-239 | the text of the file, line by line; none behind the timeout |
| VpnConfig.ReadPair | vpn_config.c:27-69 | a setting changes its field and no other |
| VpnConfig.FirstPairOf | libUseful-bundled/Tokenizer.c:453-480 | what the first pair of a written line is, for every value: what stands in front of the first blank that is neither in quotes nor behind a backslash, without the quotes around it |
| VpnConfig.ValueComesBack | libUseful-bundled/Tokenizer.c:453-480 | every value is read back as it was written exactly when it has no line end, no blank that is neither in quotes nor behind a backslash, no white space at its end and no quotes around it |
| VpnConfig.PlainIsOneWord | libUseful-bundled/Tokenizer.c:453-480 | a value without white space comes back exactly when it is not wrapped in quotes |
| VpnConfig.ReadConfigLine | vpn_config.c:19-75 | all settings of a line, one after the other |
| VpnConfig.ReadConfig | vpn_config.c:78-103 | all lines of the file |
| VpnConfig.ReadWritten | vpn_config.c:19-75 | a line that was written for a value that comes back sets, when read, exactly that value |
| VpnConfig.ReadBack | vpn_config.c:78-103 | reading a saved file sets what is found in it, on top of what was there |
| VpnSettings.ValueSets | vpn_config.c:19-103 | a line with a value that comes back sets its setting, in any case of the name, to exactly that value; white space behind it goes |
| VpnSettings.PlainIsWord | libUseful-bundled/Tokenizer.c:453-480 | every value without white space, quotes and backslashes is such a value |
| VpnSettings.QuotedSets | libUseful-bundled/Tokenizer.c:453-480 | a value in quotes of either kind, with any blanks in it, sets its setting to what is between the quotes |
| VpnSettings.TextSettings | vpn_config.c:27-58 | `Server=`, `LocalAddress=`, `RemoteDev=` and `DNS=` set their own field and no other |
| VpnSettings.UserSettings | vpn_config.c:27-58 | so do `ClientID=`, `UserName=`, `Password=` and `RemoteSearchPath=` |
| VpnSettings.OtherSettings | vpn_config.c:27-60 | `AllowedIPs=` adds to a list, `Timeout=` is a duration, any `Protocol=` means TCP |
| VpnSettings.CertSettings | vpn_config.c:5-33 | `ClientCert=`, `ClientKey=`, `VerifyCert=` and `ServerCert=` set a path, under the home directory if it starts with `~/` |
| VpnSettings.FileSettings | vpn_config.c:5-37 | so do `ConfFile=`, `UpFile=` and `DownFile=` |
| VpnSettings.SideSettings | vpn_config.c:48-69 | `LocalSU=` and `RemoteSU=` set at most one of the two flags of their side, and none for any other word |
| VpnSettings.WrittenFile | vpn_config.c:107-239 | the whole file that is written, in the order of its lines, letter for letter |
| VpnConfig.RoundTrip | vpn_config.c:19-239 | without a timeout, when every value is one that comes back: every text that was not empty comes back, the TCP flag, and both sides' su and sudo flags as far as they were written |
| VpnConfig.SideComesBack | vpn_config.c:208-232 | a side's flags come back exactly when not both were set or the reader had both set |
| VpnConfig.TimeoutRead | vpn_config.c:199-203 | with a timeout the setting behind it becomes part of the timeout's value |
| VpnConfig.SwitchesComeBack | vpn_config.c:199-232 | for every reader, all of the TCP, su and sudo flags come back exactly when those whose lines are read meet their own conditions and the one that is lost behind a timeout is what the reader has already |
| VpnConfig.FromStart | main.c:59-65 | from the start of the program: an ordinary user gets them back exactly when there is no timeout or nothing behind it; root exactly when not both local flags were saved and, with a timeout, neither of them nor TCP |
| SslServer.InStringList | libUseful-bundled/StringList.c:5-25 | membership in a list of tokens |
| SslServer.SSLAuth | ssl_server.c:11-80 | the collected flags let a client in exactly when the policy does |
| SslServer.UnverifiedClients | ssl_server.c:35-63 | without a verified certificate only `open`, or `ip-only:` with a name and a listed address, lets a client in |
| SslServer.WordPolicies | ssl_server.c:35-66 | who gets in under `open`, `cert`, `system` and without a policy |
| SslServer.ListPolicies | ssl_server.c:43-63 | who gets in under `users:`, `ips:` and `ip-only:` with any list: by the name or the address in it, and a verified certificate or only a name |
| SslServer.OtherPolicies | ssl_server.c:35-66 | under any other text nobody gets in |
| SslServer.IpIsNoPolicy | ssl_server.c:35-66 | `ip:`, as in the manual's example, lets nobody in |
| SslServer.SSLServer.constructor | ssl_server.c:165-170 | the listener alone |
| SslServer.SSLServer.AcceptClient | ssl_server.c:112-132 | a client that may connect gets a pppd, and both are connected to each other; another is closed; all invariants hold |
| SslServer.SSLServer.ShutdownConnection | ssl_server.c:83-92 | both sides leave the list, the others staying in order, and are closed |
| SslServer.SSLServer.Relay | ssl_server.c:95-108 | what is read from one side is received there and sent to the other, all invariants kept |
| SslServer.SSLServer.Process | ssl_server.c:95-108 | what was read is sent to the peer, in order; when nothing was, the pair goes |
| SslServer.SSLServer.Serve | ssl_server.c:172-181 | one round does to the connections what its event says, reads into the chosen stream only, and keeps the listener, the disjoint pairs, that clients were admitted, and that each side was sent what the other received |
| SslServer.SSLServer.Loop | ssl_server.c:172-181 | any run is a sequence of such rounds; each stream has received what the rounds that chose it read, in order, and its peer was sent that; what is closed is never touched again |
| LineEdit.TLineEdit.constructor | libUseful-bundled/LineEdit.c:4-17 | an empty line, and a bound of 30 if there is a history |
| LineEdit.TLineEdit.SetText | libUseful-bundled/LineEdit.c:30-35 | the text, with the cursor behind it |
| LineEdit.TLineEdit.CutAtCursor | libUseful-bundled/LineEdit.c:142-145 | the text is one shorter, and every character behind the cursor is where the one in front of it was |
| LineEdit.TLineEdit.Move | libUseful-bundled/LineEdit.c:123-137 | the cursor keys |
| LineEdit.TLineEdit.Erase | libUseful-bundled/LineEdit.c:139-159 | delete and backspace |
| LineEdit.TLineEdit.Insert | libUseful-bundled/LineEdit.c:166-177 | a character comes in at the cursor; a zero byte does not, but is counted |
| LineEdit.TLineEdit.HandleChar | libUseful-bundled/LineEdit.c:81-183 | every key does to the text in front of and behind the cursor what it should, and length and cursor stay right, exactly unless its code ends in a zero byte |
| LineEdit.TLineEdit.AddToHistory | libUseful-bundled/LineEdit.c:55-79 | the history with the line, the first one gone if it was full |
| LineEdit.TLineEdit.Done | libUseful-bundled/LineEdit.c:186-195 | the line is returned, remembered and cleared |
| LineEdit.RememberKeepsTidy | libUseful-bundled/LineEdit.c:55-79 | never more than MaxHistory + 1 lines, none empty, none twice in a row |
| LineEdit.Remembered | libUseful-bundled/LineEdit.c:55-79 | the newest line is last, and at most the first is lost |
| LineEdit.UpWalksBack | libUseful-bundled/LineEdit.c:97-108 | n times up shows the n-th line from the end, and stays at the first |
| LineEdit.DownWalksForth | libUseful-bundled/LineEdit.c:110-121 | going down shows the next lines in turn, and below the last an empty one |
| LineEdit.DownFromTheLine | libUseful-bundled/LineEdit.c:110-121 | below the line that is being written there is nothing |
| LineEdit.KeyAnswers | libUseful-bundled/LineEdit.c:81-183 | what is returned for each key |
| LineEdit.OneCharacter | libUseful-bundled/LineEdit.c:123-177 | for every key: where the cursor is, and which one character has come or gone at it |
| LineEdit.Undone | libUseful-bundled/LineEdit.c:149-177 | typing and taking back, and left and right, cancel out |
| LogRotate.GenerationsDiffer | libUseful-bundled/Log.c:207 | the paths of the generations are different, and none is the log's |
| LogRotate.GenerationForm | libUseful-bundled/Log.c:207 | the path of a generation, digit by digit |
| LogRotate.MoveUp | libUseful-bundled/Log.c:205-211 | one step of the loop moves one generation up |
| LogRotate.Rotate | libUseful-bundled/Log.c:204-218 | every generation holds what the one below held, the first the log, the log is empty, gaps stay gaps, no other path changes |
| LogRotate.LogFile.DoRotate | libUseful-bundled/Log.c:165-232 | and that happens exactly when a bounded, owned, plain log file is too long |
| LogRotate.ArchiveKeepsLast | libUseful-bundled/Log.c:204-218 | one rotation adds the log to the past of which the generations hold the newest |
| LogRotate.LogFile.RotateIfLarge | libUseful-bundled/Log.c:165-232 | the log has moved into the past if it was larger than allowed, or all is as it was |
| LogRotate.LogFile.WriteAll | libUseful-bundled/Log.c:275-320 | over any run of writes the generations hold the last logs, the logs of the past and the present one together are all that was written, and the log never exceeds its bound by more than its last entry |
| Quoting.HTTPQuoteChars | libUseful-bundled/HttpUtil.c:58-97 | the loop quotes the characters of the list and no others |
| Quoting.HTTPUnQuote | libUseful-bundled/HttpUtil.c:18-54 | the loop decodes plus signs and percent escapes, malformed ones included |
| Quoting.UnQuoteOfQuote | libUseful-bundled/HttpUtil.c:18-97 | unquoting restores every text quoted with a reversible list |
| Quoting.RestoresIffReversible | libUseful-bundled/HttpUtil.c:18-97 | it restores every text exactly when the list has percent and plus and no byte above 127 |
| Quoting.HTTPQuoteRestores | libUseful-bundled/HttpUtil.c:101-104 | the list of HTTPQuote is one of those |
| Quoting.QuotedIsFree | libUseful-bundled/HttpUtil.c:58-97 | a listed character that percent escapes do not use is gone from the result |
| Quoting.QuotedForm | libUseful-bundled/HttpUtil.c:58-97 | what a quoted character looks like, in capital digits |
| Quoting.HTTPListIs | libUseful-bundled/HttpUtil.c:101-104 | which characters HTTPQuote quotes |
| Quoting.EscapedForm | libUseful-bundled/HttpUtil.c:18-54 | a percent sign and two digits in either case are the byte of that number |
| Quoting.PlainForm | libUseful-bundled/HttpUtil.c:18-54 | a plus sign is a blank, all other characters are themselves |
| Quoting.Malformed | libUseful-bundled/HttpUtil.c:18-54 | what becomes of a percent sign that two digits do not follow, in every case |
| Quoting.EncodeYenc | libUseful-bundled/Encodings.c:95-115 | the loop appends one byte's text after the other |
| Quoting.DecodeYenc | libUseful-bundled/Encodings.c:118-138 | the loop decodes escapes and plain bytes |
| Quoting.YencForm | libUseful-bundled/Encodings.c:95-115 | what one byte of yEnc looks like |
| Quoting.YencRestoresIff | libUseful-bundled/Encodings.c:95-138 | decoding restores all bytes exactly when the quote character is neither 0 nor 194 |
| Quoting.YencOneLineIff | libUseful-bundled/Encodings.c:95-115 | the text has no line end, for all bytes, exactly when the quote character is none and is not escaped to one |
| IPMask.GenMask | libUseful-bundled/IPAddress.c:197-223 | the shift loops make len ones and then zeros, put into network order; len is taken as 0 or 32 outside its range |
| IPMask.MaskIP | libUseful-bundled/IPAddress.c:227-233 | the address under that mask |
| IPMask.MatchesMask | libUseful-bundled/IPAddress.c:235-244 | a match exactly when the first len bits, in host order, agree |
| IPMask.WrittenAddresses | libUseful-bundled/IPAddress.c:235-244 | addresses as they are written, byte by byte, match at a length exactly when they agree that far |
| IPMask.ShorterMatches | libUseful-bundled/IPAddress.c:235-244 | a match at one length is one at every shorter length |
| IPMask.MatchingIsEquivalence | libUseful-bundled/IPAddress.c:235-244 | at each length an equivalence; equality at 32, everything at 0 |

## Left out

- Kernel calls, memory locking and protection, processes, terminals, OpenSSL, zlib, hashing and the STREAM layer below reading and writing bytes.
- Seccomp: the check forms `n`, `<` and `!` are emitted as in the source, but the interpreter gives no meaning to them; the name parser never makes them. The modifiers next to a level are in `ParseSecurity`, not in the level theorems.
- SeccompFilter.Filter.Setup: asks for a rule text without quotes and backslashes, which the tokenizer would take away.
- Chunked bodies that are malformed or cut short, beyond what one call does with them.
- Lists: ordered and self-organising lists, items that time out during a lookup, the delete flag, joining, clearing, the times and hit counts of data items, and maps with no chains.
- ListFind.FindTypedItem: for maps that ignore case it says what is found from the chain of the name on, not in earlier chains.
- Expect.STREAMExpectDialog: does not model flushing, or the pause in front of a reply.
- SecureMem.SecureStore.Add: does not model the global store through which the source sets the memory's protection, nor sizes beyond 31 bits.
- Loading a store from a file, and credentials, realms and users with backslashes in them.
- Credentials.CredsStore.Lookup: does not model what happens to the store's memory on a fork.
- VpnConfig.WriteConfig: does not model creating directories, and a server name that is missing rather than empty.
- VpnConfig.ReadConfig: the meanings of a duration and of backslashes in a setting's name are parameters.
- The addresses that the TLS server gives to clients, its log messages, and how a stream is chosen among those that are ready.
- LineEdit.TLineEdit.AddToHistory: the history is a sequence of lines with a mark, not the list of nodes.
- LineEdit.TLineEdit.HandleChar: does not say what further keys do once a key with a zero low byte has come.
- LogRotate.Rotate: does not model other processes that touch the files at the same time.
- LogRotate.LogFile.WriteAll: an entry is the text that is written, with its date and other marks.
- PatternMatch.c, DataParser.c, Array.c and HMAC.c of libUseful; command lines, help texts, shell commands, content types, key codes.
