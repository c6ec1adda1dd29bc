# NVIDIA container runtime: a verified model of its core

This project models the core of the NVIDIA container runtime in Dafny and proves properties
of the model. It covers three layers.

- **The runtime shims** (`cmd/main.go` and the older `runtime/src/main.go`) stand in front
  of runc. On `create` they inject the NVIDIA prestart hook into the bundle's OCI spec, then
  hand the command line over to runc.
- **The prestart hooks** (`nvidia-container-runtime-hook/` and `hook/nvidia-container-runtime-hook/`)
  read the container's environment and turn it into an `nvidia-container-cli configure`
  command line.
- **libnvidia-container and its CLI** (`src/`, with an older copy of some files at the top
  level) do the following:
  - parse option strings and `--require` expressions;
  - select devices;
  - read `/proc` and `ld.so.cache`;
  - collect the driver's libraries, binaries, device nodes and IPC sockets;
  - manage the library context and its error record.

Each source file of the core is one module (one `.dfy` file):

- Pure logic is made of datatypes, functions and lemmas.
- Code that updates state in place becomes methods. Each method is proved against a
  specification function; the properties of that function are proved as lemmas.
- The world outside the model is passed in as a parameter:
  - the file system, `PATH` lookups and `exec`;
  - the driver and the kernel;
  - `realpath`, `getppid` and `strerror`.

## Model

| member | source | states |
|---|---|---|
| Shim.Classify | cmd/main.go:74-98 | a token is the create command exactly when it is the word `create`; a token that is not `create` and does not start with '-' is ignored |
| Shim.AllDashesIgnored | cmd/main.go:85-88 | a token made only of dashes is ignored |
| Shim.BundleValueOf | cmd/main.go:85-97 | any number of dashes, `bundle` or `b`, '=' and a path: the path is everything after the first '=' |
| Shim.BundleFlagOf | cmd/main.go:85-98 | any number of dashes followed by `bundle` or `b` alone: the path is the next token |
| Shim.BundleValueShape | cmd/main.go:85-97 | conversely, a token read as `bundle=PATH` is dashes, `bundle` or `b`, '=' and PATH |
| Shim.BundleFlagShape | cmd/main.go:85-98 | conversely, a token read as a bare bundle flag is dashes followed by `bundle` or `b` |
| Shim.ParseArgs | cmd/main.go:71-108 | the only error getArgs can return is "bundle option needs an argument" |
| Shim.ParseArgsAt | cmd/main.go:74-105 | one iteration at position i: `create` sets the command, `bundle=p` sets the path, a bare bundle flag takes the next token (and fails when it is last), anything else is skipped |
| Shim.GetArgs | cmd/main.go:71-108 | the loop, with its index advanced by hand past a flag's value, computes ParseArgs of the whole argv |
| Shim.ParseArgsConcat | cmd/main.go:74-105 | reading argv in two parts: a part that parses cleanly hands its result to the rest |
| Shim.ParseArgsStep | cmd/main.go:76-104 | the effect of each kind of token appended to a clean prefix: `create` sets the command; `bundle=p` overwrites the path; a bare flag at the end fails, and with a value after it sets the path; any other token changes nothing |
| Shim.ParseArgsCmd | cmd/main.go:76-79 | only the bare word `create` ever sets the command; without it the command stays as it was |
| Shim.InjectKeepsExisting | cmd/main.go:155-171 | injection keeps the existing prestart hooks as a prefix, adds at most one hook, and leaves poststart and poststop alone |
| Shim.InjectIdempotent | cmd/main.go:156-171 | with a resolved hook path, injecting twice gives the same hooks as injecting once |
| Shim.InjectExactlyOne | cmd/main.go:156-171 | starting from zero or one NVIDIA hook, exactly one NVIDIA hook results |
| Shim.ResolvedPathNamesHook | cmd/main.go:144-151 | every path the hook lookup can produce (the PATH hit or the default path) contains the hook's name |
| Shim.DefaultPathEndsInHook | cmd/main.go:22 | the default hook path ends in "/nvidia-container-runtime-hook" |
| Shim.FindNvidiaHook | cmd/main.go:158-166 | the scan over the prestart hooks answers whether some hook path contains the hook's name |
| Shim.AddNvidiaHook | cmd/main.go:143-174 | a failed lookup returns the stat error and leaves the spec untouched, even when a hook is already there; otherwise the hooks become the injected hooks and the rest of the spec is kept |
| Shim.ConfigFilePath | cmd/main.go:260-276 | fails exactly when the bundle path is empty and Getwd fails, with the "error getting working directory" message; otherwise the path is the cleaned bundle directory (or working directory) followed by "/config.json", just "config.json" when that directory cleans to "." and "/config.json" when it cleans to "/" |
| Shim.LocateRunc | cmd/main.go:111-129 | docker-runc is preferred over runc; the lookup fails exactly when neither is found |
| Shim.ExecRunc | cmd/main.go:111-141 | the process is replaced only when a runc was found and exec did not return; its argv is the runc path followed by the shim's own arguments after argv[0] |
| Shim.Run | cmd/main.go:184-258 | a setup error or a bad command line ends the run with its message; a command other than create goes to runc with the spec unwritten; a spec is written back only for create, and it is the loaded spec with the hook injected; the run ends in runc exactly when setup and parsing succeed, runc (or docker-runc first) is found, the exec replaces the process, and for create the config path, the load, the hook path and the write all succeed (Shim.Forwards); runc then gets the shim's arguments after its own name |
| LegacyShim.GetArgs | runtime/src/main.go:50-65 | the range loop over os.Args (program name included) computes Visited of all tokens |
| LegacyShim.VisitedFails | runtime/src/main.go:53-58 | parsing fails, with "bundle option needs an argument", exactly when the last token is `--bundle` or `-b` |
| LegacyShim.VisitedCmd | runtime/src/main.go:59-61 | the command is `create` exactly when that word occurs anywhere, even as the value of a flag |
| LegacyShim.VisitedBundle | runtime/src/main.go:54-58 | the bundle path is the token after the last bundle flag, or "" when there is no flag |
| LegacyShim.AddNvidiaHook | runtime/src/main.go:85-109 | a failed lookup whose default path is missing returns the stat error and changes nothing; otherwise one hook is appended, carrying LookPath's own path result, because the fallback branch declares a new `path` |
| LegacyShim.ShadowedHookPath | runtime/src/main.go:86-93 | when the hook is found only at the default path, the appended hook is `Hook("", ["", "prestart"])` |
| LegacyShim.AppendKeepsExisting | runtime/src/main.go:99-106 | existing prestart hooks keep their order, one hook follows them, and the other hook lists are kept |
| LegacyShim.RepeatedInjection | runtime/src/main.go:99-106 | there is no check for an existing hook: each injection adds one more NVIDIA hook |
| LegacyShim.SpecFilePath | runtime/src/main.go:132-139 | the spec file is the bundle directory, or else the working directory, followed by "/config.json"; a Getwd error is passed on |
| LegacyShim.ShimMain | runtime/src/main.go:111-162 | every exit status is 0 or 1; a non-create command execs runc with the shim's arguments or exits 1; a written spec is the loaded one with the hook appended; exit 0 happens exactly when a create run gets through every step and exec returns without an error; the run ends in runc exactly when setup and parsing succeed, runc is found, the exec replaces the process, and for create the spec path, the load, the hook lookup and the write all succeed (LegacyShim.LegacyForwards); runc then gets the found binary and the shim's arguments after its own name |
| OciSpec.NoNvidiaHookCount | cmd/main.go:159-165 | the count of NVIDIA hooks is zero exactly when no hook path contains the hook's name |
| GoPath.JoinWithName | cmd/main.go:144 | exec.LookPath's result, a PATH directory joined with the hook's file name, is that name or ends in "/" followed by it |
| GoPath.JoinValue | cmd/main.go:273 | filepath.Join of a directory and a plain file name is the name alone when the directory cleans to ".", "/" and the name when it cleans to "/", and otherwise the cleaned directory, "/" and the name |
| Utils.Strcmp | src/utils.c:151 | the sign strrcmp and strpcmp take from strcmp: 0 exactly when the strings are equal, otherwise -1 or 1 |
| Utils.StrpcmpPrefix | src/utils.c:138-142 | strpcmp(s1, s2) is 0 exactly when s2 is a prefix of s1 |
| Utils.StrrcmpSuffix | src/utils.c:144-152 | strrcmp is -1 when s1 is shorter than s2, and 0 exactly when s2 is a suffix of s1 |
| Utils.StrMatch | src/utils.c:160-168 | the loop over the array answers true exactly when some element is a prefix of the string |
| Utils.StrToIMax | src/utils.c:198 | strtoimax's value lies between INTMAX_MIN and INTMAX_MAX, and the index where conversion stopped lies within the string |
| Utils.StrToPidRange | src/utils.c:192-213 | every pid strtopid accepts lies within the range of pid_t |
| Utils.StrToPidRoundTrip | src/utils.c:192-213 | the decimal text of any non-negative pid_t value reads back as that value |
| Utils.StrToPidNegative | src/utils.c:192-213 | a '-' before the decimal text of n reads back as -n, down to the least pid_t |
| Utils.StrToPidEmpty | src/utils.c:199-203 | an empty string is no pid: "parse pid failed" with EINVAL |
| Utils.ArrayAppend | src/utils.c:263-268 | the entries are copied into the array at the pointer, nothing else changes, and the returned pointer is just past them |
| Utils.ArrayPack | src/utils.c:270-286 | the non-NULL entries move to the front in their order, the NULLs follow, the size becomes their count, a NULL array is left alone, and entries past the size are untouched |
| Utils.PackedPermutes | src/utils.c:270-286 | the packed array has the same length and the same multiset of entries as before |
| Utils.NonNullEntries | src/utils.c:270-286 | every entry before the new size is non-NULL |
| Utils.PackStep | src/utils.c:277-283 | one pass of the loop: a non-NULL entry is swapped with the first NULL, and the packed prefix and NULL count grow accordingly |
| Utils.PathJoin | src/utils.c:562-576 | path_join succeeds exactly when p1, a '/' unless p2 is absolute, and p2 fit in PATH_MAX, and the buffer is then exactly that text |
| Utils.PathAppend | src/utils.c:542-560 | path_append succeeds exactly when the buffer, the separator and the path fit in PATH_MAX; the old buffer stays a prefix in every case |
| Utils.PathAppendIsJoin | src/utils.c:542-576 | appending to a buffer that holds p1 gives the same buffer and the same verdict as joining p1 and p2 |
| Text.LowerAll | src/utils.c:131-136 | strlower: every character becomes its C-locale lower case, and the length is kept |
| Options.OptionIndex | src/options.c:32-37 | the table search stops at the first entry named exactly like the token, or runs off the end when none is |
| Options.FindOption | src/options.c:32-37 | the inner for loop finds that same index |
| Options.AccumulateMeaning | src/options.c:29-43 | the strsep loop succeeds exactly when every non-empty token names an option; the flags are then the OR of all their values, and otherwise the error is "invalid option: " and the first unknown token |
| Options.OptionsParse | src/options.c:14-44 | options_parse, the length check followed by the strsep loop, computes Parse of its input |
| Options.Absorbed | src/options.c:34 | a token that occurs in a list adds nothing to the OR of that list |
| Options.OrAllSubset | src/options.c:29-37 | the OR over a list is contained in the OR over any list with at least its tokens |
| Options.SameTokensSameFlags | src/options.c:29-37 | the flags depend only on which non-empty tokens occur, not on their order or repetition |
| Options.BlankParse | src/options.c:19-31 | an empty string, or one of spaces only, gives no flags |
| Options.OrAllNonNegative | src/options.c:34 | OR-ing values without the sign bit never sets it |
| Options.TablesNonNegative | src/options.h:18-80 | no value in the library, driver, device or container tables has the sign bit |
| Options.SuccessNeverMinusOne | src/options.c:14-44 | with such a table a successful parse never has the sign bit set, so the result is never the error value -1 |
| ErrorGeneric.Error.constructor | src/error_generic.c:12-21 | a fresh error record has code 0 and no message |
| ErrorGeneric.CutAtNewline | src/error_generic.c:47 | the message is cut just before its first newline, and the part kept holds no newline |
| ErrorGeneric.LastIndexOfMeaning | src/error_generic.c:48 | strrchr finds a ':' with none after it, and finds nothing only when there is none |
| ErrorGeneric.LowerFromLastColon | src/error_generic.c:48 | lowering from the last ':' keeps the length |
| ErrorGeneric.ComposeKeepsText | src/error_generic.c:43-48 | a newline-free text survives intact: the cut and the lowering act only inside the ": errmsg" part |
| ErrorGeneric.ComposeLowersErrmsg | src/error_generic.c:43-48 | with an errmsg free of ':' and newlines, the message is the text, ": " and the errmsg in lower case |
| ErrorGeneric.Reset | src/error_generic.c:12-21 | a NULL record is ignored; otherwise the message is freed and the code cleared |
| ErrorGeneric.VSet | src/error_generic.c:23-54 | a NULL record is a no-op returning 0; otherwise the code is errcode and the message is the composed one |
| ErrorGeneric.Set | src/error_generic.c:56-66 | error_set uses errno as the code and strerror(errno) as the suffix |
| ErrorGeneric.SetX | src/error_generic.c:68-78 | error_setx uses code -1 and the formatted text alone as the message |
| NvcInternal.Context.constructor | src/nvc.c:89-97 | nvc_context_new: a zeroed context, uninitialized, with an empty error record and nothing owned |
| NvcInternal.ContextFree | src/nvc.c:99-106 | nvc_context_free: a NULL context is ignored; otherwise its error record is reset |
| NvcInternal.Zeros | src/nvc_internal.h:78-88 | the slots a row's initializer leaves out are zero |
| NvcInternal.Row | src/nvc_internal.h:78-88 | every effective_caps row is one slot longer than permitted_caps |
| NvcInternal.SentinelIndex | src/nvc_internal.h:95-105 | the first -1 of a row: nothing before it is -1 |
| NvcInternal.EffectiveCapsSize | src/nvc_internal.h:95-105 | effective_caps_size counts a row's entries up to its -1 sentinel, and the count never exceeds the row's length |
| NvcInternal.RowSentinel | src/nvc_internal.h:78-88 | a row built from a list without -1 holds exactly that list before its sentinel |
| NvcInternal.EffectiveCapsPermitted | src/nvc_internal.h:63-88 | every effective_caps row lists, before its sentinel, only capabilities that are in permitted_caps |
| NvcInternal.ValidateContext | src/nvc_internal.h:107-117 | a NULL context gives -1 with no error set; an uninitialized one gives -1 and "context uninitialized"; an initialized one gives 0 and its error is left alone |
| NvcInternal.ValidateArgs | src/nvc_internal.h:119-127 | -1 with "invalid argument" exactly when the predicate is false, otherwise 0 and the error is left alone |
| Nvc.After | src/nvc.c:254-301 | the error record after an operation that wrote an error holds a message |
| Nvc.Fault | src/nvc.c:254-301 | a call outside the model writes an error exactly when it fails |
| Nvc.NvcError | src/nvc.c:326-334 | nvc_error: NULL for a NULL context; for any other, no message exactly when the code is 0 and no message was set, and the message when there is one |
| Nvc.Record | src/nvc.c:254-301 | a failing outside call leaves its code and message in the error record |
| Nvc.FirstLine | src/nvc.c:111-114 | what file_read_line leaves in the 64-byte buffer is a prefix of the file shorter than the buffer |
| Nvc.ScanU32 | src/nvc.c:118 | one %u conversion yields a 32-bit value and stops after at least one character |
| Nvc.ReadFailure | src/nvc.c:114-115 | a failed read decides the answer and keeps the error it wrote |
| Nvc.MapStep | src/nvc.c:114-123 | an id map whose answer is -1 has an error written |
| Nvc.WithinUserns | src/nvc.c:108-142 | init_within_userns always decides, and every -1 comes with an error written |
| Nvc.MapLineReads | src/nvc.c:111-123 | an id map line as the kernel writes it, shorter than the buffer, is read whole and scanned back as its three numbers |
| Nvc.TripleReads | src/nvc.c:118 | the three numbers of a map line are read back by the three conversions |
| Nvc.ScanU32Reads | src/nvc.c:118 | a number below 2^32 printed after blanks reads back and stops at its last digit |
| Nvc.MappedUids | src/nvc.c:114-123 | any uid map other than the identity map of all 2^32 ids means a user namespace |
| Nvc.IdentityMaps | src/nvc.c:108-142 | with identity uid and gid maps, the answer is the setgroups file: "deny" means a user namespace, anything else the initial namespace |
| Nvc.KmodsSpec | src/nvc.c:144-175 | the kernel modules fail to load only with an error written |
| Nvc.LoadKernelModules | src/nvc.c:144-175 | load_kernel_modules up to the fork: 0 inside a user namespace, -1 when the namespace test or the fork fails, with that error written |
| Nvc.CopyConfigDefaults | src/nvc.c:219-252 | with nothing configured, the context gets root "/", LDCACHE_PATH and the kernel's overflow uid and gid |
| Nvc.CopyConfigIdempotent | src/nvc.c:219-252 | a copied configuration whose ids are set copies unchanged, whatever the overflow files hold |
| Nvc.CopyConfig | src/nvc.c:219-252 | the context's configuration becomes the copied one; 0 exactly when no read failed, with that read's error written otherwise; the copies are now owned by the context |
| Nvc.InitSpec | src/nvc.c:254-301 | every failure of nvc_init writes an error; a success leaves the copied configuration with root and ldcache set, an open mount namespace and a started driver; an explicitly empty root or ldcache fails with "invalid argument" before anything changes |
| Nvc.SetupSpec | src/nvc.c:275-296 | the same, for the steps after the options are parsed |
| Nvc.KmodsSkippedInUserns | src/nvc.c:163-168 | inside a user namespace the kernel modules are not loaded, so the fork's outcome makes no difference |
| Nvc.NoKmodsNoProbe | src/nvc.c:288-291 | without load-kmods, the user namespace files and the fork play no part |
| Nvc.Init | src/nvc.c:254-301 | nvc_init: a NULL context fails; an initialized one returns 0 unchanged; otherwise the context follows InitSpec, is initialized exactly when it returns 0, and a failure leaves an error message |
| Nvc.Setup | src/nvc.c:275-300 | the steps from copy_config on: the context follows SetupSpec and is initialized exactly on success, releasing its copies and descriptor on failure |
| Nvc.Shutdown | src/nvc.c:303-324 | nvc_shutdown: a NULL context fails; an uninitialized one returns 0 unchanged; a failed driver shutdown returns -1 with the context still initialized; otherwise the configuration is cleared, the descriptor is -1 and the context is no longer initialized |
| LegacyNvc.LdcacheRequest | nvc.c:102 | the path handed to xrealpath is the configured ldcache, or LDCACHE_PATH when none is set |
| LegacyNvc.LegacyInitSpec | nvc.c:70-122 | every failure writes an error; a success leaves a configuration holding only the resolved ldcache, an open mount namespace and a started driver |
| LegacyNvc.LegacySetupSpec | nvc.c:99-121 | the same, for the steps from the ldcache resolution on |
| LegacyNvc.UvmFailureKeepsContext | nvc.c:90-96 | a failed UVM load returns -1 with "loading UVM kernel module failed", before the configuration or descriptor is touched |
| LegacyNvc.NoUvmNoProbe | nvc.c:90 | without the load-uvm option the UVM calls play no part |
| LegacyNvc.LdcacheDefault | nvc.c:102-103 | an unset ldcache behaves exactly like an explicit LDCACHE_PATH |
| LegacyNvc.LegacyInit | nvc.c:70-122 | this nvc_init: a NULL context fails; an initialized one returns 0 unchanged; otherwise the context follows LegacyInitSpec, is initialized exactly when it returns 0, and a failure leaves an error message |
| LegacyNvc.LegacySetup | nvc.c:99-121 | the steps from the ldcache resolution on: the context follows LegacySetupSpec and is initialized exactly on success |
| ProcRead.Getlines | src/nvc_container.c:118 | getline's successive results are non-empty, and there are none exactly when the file is empty |
| ProcRead.GetlinesCons | src/nvc_container.c:118 | a newline-terminated line comes out of getline whole, ahead of the rest of the file |
| ProcRead.GetlinesOpen | src/nvc_container.c:118 | a file holding one line without a newline yields that line and reaches end of file |
| ProcRead.FirstAccepted | src/nvc_container.c:118-125 | the line that stops the loop is accepted, and every line before it was rejected; with no such line, every line was rejected |
| ProcRead.FirstAcceptedSkip | src/nvc_container.c:118-125 | a rejected line ahead of the others moves the first accepted line one place on |
| Container.MountAccepts | src/nvc_container.c:67-78 | an accepted mount has a non-empty mount point and root, and the root is shorter than PATH_MAX and does not start with "/.." |
| Container.CgroupMountSpec | src/nvc_container.c:54-81 | the same guarantees for cgroup_mount on a whole line |
| Container.ReadMountFields | src/nvc_container.c:59-65 | the strsep and strchr calls pick the 4th and 5th fields, then the 2nd and 4th fields after the first '-' |
| Container.CgroupMount | src/nvc_container.c:54-81 | cgroup_mount computes CgroupMountSpec of its line; on a line of five fields or fewer, where the C code hands NULL to strchr, that is a rejection (see Left out) |
| Container.ShortLineRejected | src/nvc_container.c:59-62 | a line that runs out before its sixth field is rejected |
| Container.MountinfoLineParsed | src/nvc_container.c:54-81 | on a well-formed mountinfo line, cgroup_mount accepts exactly a cgroup mount whose super options mention the subsystem and whose non-empty root is shorter than PATH_MAX and does not start with "/.."; it returns the mount point and root |
| Container.RootAccepts | src/nvc_container.c:92-101 | the path cgroup_root returns is a suffix of the third field: the prefix is only ever stripped from its front |
| Container.CgroupRoot | src/nvc_container.c:83-104 | cgroup_root computes CgroupRootSpec of its line |
| Container.CgroupLineParsed | src/nvc_container.c:83-104 | on a line "id:controllers:path" it accepts exactly controllers mentioning the subsystem and a non-empty path shorter than PATH_MAX that does not start with "/.."; the mount root is stripped from the path unless it is "/" |
| Container.ParseProcSpec | src/nvc_container.c:106-140 | parse_proc_file returns a value exactly when it writes no error; the read error is reported whenever reading failed and either no line was accepted or the accepted line was an unterminated last one |
| Container.ParseProcFile | src/nvc_container.c:106-140 | the function returns what ParseProcSpec says and leaves the error it names |
| Container.ScanLines | src/nvc_container.c:118-125 | the getline loop returns the result of the first accepted line; the error flag is set exactly when reading failed and either no line was accepted or the accepted line was an unterminated last one; end of file is set exactly when reading did not fail and either no line was accepted or the accepted line was an unterminated last one |
| Container.FirstLineWins | src/nvc_container.c:106-140 | a file whose first line the parser accepts yields that line's result, with no error |
| Container.UnterminatedMatchNotFound | src/nvc_container.c:130-133 | a file that is one accepted line without a newline is reported as "cgroup subsystem ... not found", because getline reached end of file |
| Container.UnterminatedMatchReadError | src/nvc_container.c:118-128 | a file that is one accepted line without a newline, whose reading then fails, reports "read error: " and the file name with the error, since getline left the error indicator set |
| Container.RejectedLineSkipped | src/nvc_container.c:118-124 | empty lines and lines the parser rejects are passed over |
| Container.CgroupPathSpec | src/nvc_container.c:142-171 | find_cgroup_path returns a path exactly when it writes no error |
| Container.FindCgroupPath | src/nvc_container.c:142-171 | the function follows CgroupPathSpec and leaves the error it names |
| Container.CgroupPathJoined | src/nvc_container.c:142-171 | the cgroup path is the prefix (the rootfs in standalone mode, "" otherwise), then the mount point from the mountinfo file, then the container's cgroup relative to that mount's root |
| Container.ContainerNewSpec | src/nvc_container.c:344-400 | nvc_container_new yields a container exactly when no error is written; a container has valid arguments, exactly one of supervised and standalone, and the configured pid and rootfs |
| Container.Located | src/nvc_container.c:383-390 | the namespace and cgroup lookups keep flags, pid and rootfs; the devices cgroup is looked up exactly when no-cgroups is not set |
| Container.ContainerNew | src/nvc_container.c:344-400 | a NULL context gives NULL; an uninitialized one gives NULL and "context uninitialized"; otherwise the result and the error follow ContainerNewSpec |
| Container.RejectsBadArgs | src/nvc_container.c:352-354 | a pid that is not positive, or a rootfs that is missing, empty or relative, gives "invalid argument" |
| Container.RejectsAmbiguousMode | src/nvc_container.c:359-362 | options naming both modes, or neither, give "invalid mode of operation" |
| LegacyContainer.LegacyMountSpec | nvc_container.c:51-75 | an accepted line has the root "/" and the filesystem type "cgroup" |
| LegacyContainer.LegacyMount | nvc_container.c:51-75 | this cgroup_mount computes LegacyMountSpec of its line |
| LegacyContainer.NestedRootRejected | nvc_container.c:67-68 | a mount rooted anywhere but "/" is never accepted |
| LegacyContainer.LegacyRootSpec | nvc_container.c:77-96 | the path returned holds no newline |
| LegacyContainer.LegacyRoot | nvc_container.c:77-96 | this cgroup_root computes LegacyRootSpec of its line |
| LegacyContainer.LegacyCgroupLineParsed | nvc_container.c:77-96 | on a line "id:controllers:path" ending in a newline, the path without its newline is accepted exactly when the controllers mention the subsystem and the path does not start with "/.."; empty fields are not refused |
| LegacyContainer.LegacyParseProcSpec | nvc_container.c:98-129 | parse_proc_file returns a value exactly when it writes no error; the read error is reported whenever reading failed and either no line was accepted or the accepted line was an unterminated last one |
| LegacyContainer.LegacyParseProcFile | nvc_container.c:98-129 | the function returns what LegacyParseProcSpec says and leaves the error it names |
| LegacyContainer.LegacyScanLines | nvc_container.c:110-114 | the getline loop hands each line to the parser whole, newline included, and stops at the first one accepted; the error and end-of-file flags are set as in the newer loop |
| LegacyContainer.LegacyFirstLineWins | nvc_container.c:98-129 | a file whose first line the parser accepts yields that line's result, with no error |
| LegacyContainer.LegacyUnterminatedMatchReadError | nvc_container.c:110-118 | a file that is one accepted line without a newline, whose reading then fails, reports the read error rather than the line |
| LegacyContainer.LegacyCgroupPathSpec | nvc_container.c:131-158 | find_cgroup_path returns a path exactly when it writes no error |
| LegacyContainer.LegacyFindCgroupPath | nvc_container.c:131-158 | the function follows LegacyCgroupPathSpec and leaves the error it names |
| LegacyContainer.LegacyCgroupPathJoined | nvc_container.c:131-158 | the cgroup path is the prefix, the mount point and the container's cgroup, in that order, and the supervised mount table is the calling process's own |
| LegacyContainer.Lib32Choice | nvc_container.c:216-235 | the 32-bit directory is USR_LIB32_DIR or USR_LIB32_ALT_DIR |
| LegacyContainer.LibDirs | nvc_container.c:201-238 | a library directory that is given is kept |
| LegacyContainer.LdconfigChoice | nvc_container.c:239-249 | the default ldconfig is LDCONFIG_PATH or LDCONFIG_ALT_PATH |
| LegacyContainer.CopyConfigSpec | nvc_container.c:188-264 | on success the rootfs is its real path, bins_dir defaults to USR_BIN_DIR, and every directory or ldconfig that is given is kept |
| LegacyContainer.MultiarchDefaults | nvc_container.c:201-212 | a root filesystem with /etc/debian_version gets the multiarch directories for whatever is not given |
| LegacyContainer.Lib32Fallback | nvc_container.c:213-236 | without multiarch, libs_dir is USR_LIB_DIR, and lib32 falls back to USR_LIB32_ALT_DIR exactly when USR_LIB32_DIR is missing and the alternative exists and resolves elsewhere than libs_dir |
| LegacyContainer.LdconfigDefault | nvc_container.c:239-249 | an unset ldconfig is LDCONFIG_ALT_PATH exactly when the root filesystem has it |
| LegacyContainer.CopyConfig | nvc_container.c:188-264 | copy_config, step by step, succeeds exactly when CopyConfigSpec does, with its directories; otherwise it leaves the error of the step that failed |
| LegacyContainer.LegacyNewSpec | nvc_container.c:266-316 | a container results exactly when no error is written; it has a positive pid, some rootfs, exactly one mode and the copied configuration |
| LegacyContainer.LegacyLocated | nvc_container.c:294-299 | the namespace and cgroup lookups keep flags, pid and directories; the devices cgroup is looked up exactly when no-cgroups is not set |
| LegacyContainer.LegacyContainerNew | nvc_container.c:266-316 | a NULL context gives NULL; an uninitialized one gives NULL and "context uninitialized"; otherwise the result and the error follow LegacyNewSpec |
| LegacyContainer.LegacyRejectsAmbiguousMode | nvc_container.c:280-283 | options naming both modes, or neither, give "invalid mode of operation" before anything is looked up |
| Dsl.OperatorIndex | src/cli/dsl.c:103-110 | the search picks the first operator that the run is a prefix of (strncmp over the run's length), and rejects the run when there is none |
| Dsl.FindOperator | src/cli/dsl.c:103-110 | the for loop over the operator table finds that same index |
| Dsl.OperatorIndexOfEntry | src/cli/dsl.c:24-31 | each operator, written as it is in the table, selects its own entry |
| Dsl.BangIsNotEqual | src/cli/dsl.c:101-104 | a lone `!` is accepted as `!=`, because strncmp compares only the run's length |
| Dsl.UnknownOperators | src/cli/dsl.c:103-112 | runs such as `==`, `=<`, `<>` and `!!` match no operator |
| Dsl.ParseTerm | src/cli/dsl.c:97-112 | an accepted term has a non-empty name free of operator characters, a known operator and a non-empty value |
| Dsl.OperatorRun | src/cli/dsl.c:101 | an operator followed by a value that does not start with an operator character is a run of exactly its own length |
| Dsl.ParseTermRoundTrip | src/cli/dsl.c:97-112 | a term written back out with its operator reads back as the same term |
| Text.StrToUMaxDigitLead | src/cli/dsl.c:45-48 | strtoumax over a version component that starts with a digit consumes exactly its leading digits and reads their value, saturated at UINTMAX_MAX |
| Dsl.Walk | src/cli/dsl.c:44-76 | the component walk answers -1, 0 or 1 |
| Dsl.CompareVersion | src/cli/dsl.c:33-77 | dsl_compare_version answers -1, 0 or 1, and -1 whenever an operand holds a character other than digits and '.' |
| Dsl.DslCompareVersion | src/cli/dsl.c:33-77 | the loop that advances a pointer into each operand computes CompareVersion |
| Dsl.CompareVersionSwap | src/cli/dsl.c:33-77 | exchanging the operands and the comparator's direction gives the same answer |
| Dsl.WalkSwap | src/cli/dsl.c:44-76 | the component walk gives the same answer with the operands exchanged and the comparator turned round |
| Dsl.WalkMalformed | src/cli/dsl.c:44-48 | whether an operand is malformed does not depend on the comparator |
| Dsl.CompareVersionConnectives | src/cli/dsl.c:49-76 | on well-formed operands `!=` is the negation of `=`, and `<=` (`>=`) holds exactly when `<` (`>`) or `=` does |
| Dsl.WalkConnectives | src/cli/dsl.c:49-76 | in the component walk `!=` is the negation of `=` whenever `=` is decided, and `<=` (`>=`) holds exactly when `<` (`>`) or `=` does |
| Dsl.WalkReflexive | src/cli/dsl.c:44-76 | a version is never unequal to itself, nor less or greater than itself |
| CliDsl.CompareString | src/cli/dsl.c:79-87 | -1 exactly for comparators other than `=` and `!=`; `=` holds exactly when the strings are equal ignoring case, and `!=` exactly when they are not |
| CliDsl.CompareStringComplement | src/cli/dsl.c:79-87 | `=` and `!=` are complementary, and `=` does not depend on the order of the operands |
| CliDsl.RuleIndex | src/cli/dsl.c:115-116 | the rule lookup picks the first rule whose name equals the term's name ignoring case |
| CliDsl.FindRule | src/cli/dsl.c:115-124 | the for loop over the rules finds that same index |
| CliDsl.RuleResult | src/cli/dsl.c:89-126 | the text kept for a false term always fits in the EXPR_MAX buffer |
| CliDsl.Verdict | src/cli/dsl.c:114-125 | the same, once the term is parsed |
| CliDsl.RuleOfTerm | src/cli/dsl.c:89-126 | a term `name op value` is decided by the first rule of that name, in any letter case: a negative answer is malformed, a positive one true, and zero false with the spaced "name op value" text, unless that text does not fit in EXPR_MAX, which makes the term malformed |
| CliDsl.UnknownRule | src/cli/dsl.c:125 | a term whose name no rule carries is malformed |
| CliDsl.EvaluateRule | src/cli/dsl.c:89-126 | evaluate_rule, with its operator search and rule lookup as loops, computes RuleResult |
| CliDsl.Judge | src/cli/dsl.c:114-125 | the rule lookup and the call of the rule's function compute Verdict |
| CliDsl.ConjunctionMeaning | src/cli/dsl.c:142-151 | with decidable terms, the inner loop runs to the end exactly when all its terms are true; `ret` then stays as it was only when the alternative held no term |
| CliDsl.DisjunctionMeaning | src/cli/dsl.c:139-158 | with regular alternatives, the outer loop is never invalid, and it is satisfied exactly when some alternative has only true terms, or every alternative is empty and no term failed before |
| CliDsl.EvaluationMeaning | src/cli/dsl.c:128-164 | read as an OR of ANDs: when every alternative has terms and all are decidable, the predicate is satisfied exactly when it has no alternative or some alternative has only true terms |
| CliDsl.CommaOnlyAlternative | src/cli/dsl.c:139-158 | an alternative made only of commas ends the search with the `ret` the previous alternative left, so after a false term it reports that term whatever follows |
| CliDsl.BareComma | src/cli/dsl.c:142 | strsep splits a lone comma into two empty pieces |
| CliDsl.DslEvaluate | src/cli/dsl.c:128-164 | dsl_evaluate, strsep over a copy of the predicate with alternatives on ' ' and terms on ',', computes Evaluation and leaves the predicate unchanged |
| LegacyDsl.RuleIndex | src/dsl.c:104-105 | the rule lookup picks the first rule whose name equals the term's name exactly (strcmp) |
| LegacyDsl.FindRule | src/dsl.c:104-113 | the for loop over the rules finds that same index |
| LegacyDsl.RuleResult | src/dsl.c:78-115 | the text kept for a false term always fits in this variant's 64-byte buffer |
| LegacyDsl.Verdict | src/dsl.c:103-114 | the same, once the term is parsed |
| LegacyDsl.EvaluateRule | src/dsl.c:78-115 | evaluate_rule, with its operator search and rule lookup as loops, computes RuleResult |
| LegacyDsl.Judge | src/dsl.c:103-114 | the rule lookup and the call of the rule's function compute Verdict |
| LegacyDsl.ConjunctionMeaning | src/dsl.c:127-136 | with decidable terms, an alternative runs to its end exactly when all its terms are true |
| LegacyDsl.DisjunctionMeaning | src/dsl.c:124-144 | with decidable terms, the outer loop is never invalid, and it is satisfied exactly when some alternative has only true terms, or every alternative is empty and no term failed before |
| LegacyDsl.EvaluationMeaning | src/dsl.c:117-145 | read as an OR of ANDs: with all terms decidable, the expression is satisfied exactly when it has no alternative or some alternative has only true terms; empty input succeeds |
| LegacyDsl.DslEvaluate | src/dsl.c:117-145 | dsl_evaluate, strsep over the expression with alternatives on ' ' and terms on ',', computes Evaluation; the first alternative whose terms all hold ends it |
| DeviceSelect.ParseIndex | src/cli/common.c:34-35 | an id read as an index is one number, with nothing after it, below UINTMAX_MAX |
| DeviceSelect.UuidIndex | src/cli/common.c:27-32 | the UUID scan picks the first device whose UUID has the id as a case-insensitive prefix |
| DeviceSelect.PickInRange | src/cli/common.c:26-38 | every single pick is a valid device index |
| DeviceSelect.SelectMeaning | src/cli/common.c:18-44 | the loop marks exactly the picked indices, and the error, "unknown device id: " and the id, names the first non-empty id that picks nothing |
| DeviceSelect.MarkOne | src/cli/common.c:29-36 | pointing one slot and then a set of slots points the slots of their union |
| DeviceSelect.SlotsOwnDevice | src/cli/common.c:23-36 | slot i is only ever pointed at device i; the other slots keep what the caller passed |
| DeviceSelect.NothingSelected | src/cli/common.c:18-44 | a NULL or empty list selects nothing and returns 0 |
| DeviceSelect.AllStops | src/cli/common.c:21-25 | "all", in any case, selects every device, whatever ids follow it |
| DeviceSelect.UuidPick | src/cli/common.c:26-32 | an id of the form "GPU-" and more picks the first device whose UUID it prefixes ignoring case, and picks nothing when there is none: it never falls back to an index |
| DeviceSelect.DigitsAreNoWord | src/cli/common.c:21-26 | a run of digits is neither "all" nor of the UUID form |
| DeviceSelect.IndexPick | src/cli/common.c:33-38 | the decimal text of an index below the number of devices picks that index |
| DeviceSelect.ResolveId | src/cli/common.c:21-41 | one pass of the loop body decides PickOf of its id |
| DeviceSelect.SelectDevices | src/cli/common.c:10-45 | select_devices writes exactly the slots Select names into the array, returns 0 or -1 accordingly, and sets the error Select names |
| DeviceSelect.MarkEvery | src/cli/common.c:22-23 | the "all" loop points every slot at its own device |
| ContainerConfig.GetEnvMap | nvidia-container-runtime-hook/container_config.go:61-71 | the loop over the entries computes EnvMapOf of all of them |
| ContainerConfig.EnvMapFailureSticks | nvidia-container-runtime-hook/container_config.go:65-67 | once an entry has panicked, later entries leave the panic as it is |
| ContainerConfig.EnvMapFails | nvidia-container-runtime-hook/container_config.go:64-67 | getEnvMap panics exactly when some entry has no '=' |
| ContainerConfig.EnvMapKeys | nvidia-container-runtime-hook/container_config.go:61-71 | the keys of the map are exactly the text before the first '=' of each entry |
| ContainerConfig.EnvMapLastWins | nvidia-container-runtime-hook/container_config.go:64-68 | each key maps to the text after the first '=' of the last entry with that key |
| ContainerConfig.LegacyConfig | nvidia-container-runtime-hook/container_config.go:93-113 | devices default to "all", "none" becomes ""; empty or "all" capabilities become the full list, any other value is kept; CudaVersion is CUDA_VERSION; devices are empty only for "none" and capabilities are never empty |
| ContainerConfig.NvidiaConfigOf | nvidia-container-runtime-hook/container_config.go:115-142 | a legacy image (CUDA_VERSION set, NVIDIA_CUDA_VERSION empty or absent) takes the legacy branch; otherwise there is no configuration exactly when NVIDIA_VISIBLE_DEVICES is absent, "none" (and only it) means no device besides an empty value, only an exact "all" widens the capabilities, and CudaVersion is NVIDIA_CUDA_VERSION |
| ContainerConfig.LoadSpec | nvidia-container-runtime-hook/container_config.go:73-90 | loadSpec returns the decoded spec exactly when decoding succeeded and it has both a process and a root; otherwise it panics |
| ContainerConfig.GetContainerConfig | nvidia-container-runtime-hook/container_config.go:144-165 | an undecodable state panics; a result holds the state's pid, the spec's root path, the environment map of the spec's process, and NvidiaConfigOf that map, with the spec read from Bundle (or BundlePath when Bundle is empty) joined with "config.json"; when every step can succeed, the call does |
| Prestart.CapabilityToCli | nvidia-container-runtime-hook/main.go:32-48 | exactly the five driver capabilities compute, compat32, graphics, utility and video succeed, each as "--" followed by its name; any other name fails with "unknown driver capability: " and the name |
| Prestart.CapabilityFlagsDistinct | nvidia-container-runtime-hook/main.go:32-48 | two capabilities that both translate give the same flag only when they are the same capability |
| Prestart.CapFlagsMeaning | nvidia-container-runtime-hook/main.go:86-91 | on success there is one flag per comma-separated element up to the first empty element (or the end), in order, each the translation of a known capability |
| Prestart.CapFlagsStopAtEmpty | nvidia-container-runtime-hook/main.go:86-91 | elements after the first empty one are never looked at: appending anything after an empty element leaves the result unchanged |
| Prestart.CapFlagsFail | nvidia-container-runtime-hook/main.go:86-91 | the capability flags fail exactly when some element before the first empty one is not a known capability |
| Prestart.PidArgValue | nvidia-container-runtime-hook/main.go:99 | the digits after "--pid=" read back as the pid, or as pid + 2^64 for a negative pid (Go's uint64 conversion) |
| Prestart.RequireArgs | nvidia-container-runtime-hook/main.go:93-97 | one "--require=" flag per requirement, in the requirements' order |
| Prestart.ConfigureArgs | nvidia-container-runtime-hook/main.go:64-100 | the vector exists exactly when the capability flags succeed; it starts with the cli path and ends with "--pid=" and the rootfs |
| Prestart.DebugFlagOverrides | nvidia-container-runtime-hook/main.go:68-72 | with -debug the configured debug destination has no effect on the vector |
| Prestart.DebugFlagPosition | nvidia-container-runtime-hook/main.go:64-72 | with -debug, "--debug=/dev/stderr" directly follows the cli path and the optional "--load-kmods" |
| Prestart.DebugInHead | nvidia-container-runtime-hook/main.go:64-84 | the head of the vector carries "--debug=/dev/stderr" at index 1, or 2 when kernel modules are loaded |
| Prestart.RequirementsGated | nvidia-container-runtime-hook/main.go:93-97 | when either the hook's or the container's DisableRequire is set the vector is the one built without requirements |
| Prestart.DeviceFlagOnlyWithDevices | nvidia-container-runtime-hook/main.go:82-84 | an empty device list adds no "--device=" flag: the vector is exactly one shorter than with a non-empty list |
| Prestart.CapabilityArgs | nvidia-container-runtime-hook/main.go:86-91 | the loop's result equals CapFlags of the split capability list |
| Prestart.BuildHeadArgs | nvidia-container-runtime-hook/main.go:64-84 | the appended vector equals HeadArgs |
| Prestart.AppendRequires | nvidia-container-runtime-hook/main.go:93-97 | the loop appends exactly RequireArgs of the requirements |
| Prestart.BuildConfigureArgs | nvidia-container-runtime-hook/main.go:64-100 | the step-by-step vector equals ConfigureArgs |
| Prestart.PrestartOutcomeUnique | nvidia-container-runtime-hook/main.go:19-30 | the outcome relation of the prestart step names one outcome for every input |
| Prestart.DoPrestart | nvidia-container-runtime-hook/main.go:50-106 | a configuration that fails to load ends in status 1; a container without NVIDIA settings ends in status 0; otherwise the cli is executed with the configure vector and the ambient environment followed by the configured one, and an unknown capability or a failed exec ends in status 1 |
| CommandHook.HookMain | nvidia-container-runtime-hook/main.go:117-138 | no command prints usage and exits 2; "prestart" ends as the prestart step does; "poststart" and "poststop" exit 0; any other command exits 2; the status is always 0, 1 or 2 |
| StatusHook.HookMain | hook/nvidia-container-runtime-hook/main.go:114-136 | an undecodable state panics to status 1; "created" ends as the prestart step does; "creating", "running" and "stopped" exit 0; any other status exits 2; the status is always 0, 1 or 2 |
| VersionOrder.LexCompareEmpty | src/cli/dsl.c:62-75 | against a used-up operand a number sequence compares equal exactly when all its numbers are zero, and otherwise on its own side |
| VersionOrder.DecimalZero | src/cli/dsl.c:62-63 | a digit string is worth zero exactly when every digit is '0' |
| VersionOrder.ZerosOnly | src/cli/dsl.c:62-63 | skipping dots and zeros uses up a well-formed version exactly when all its numbers are zero, so the trailing-zero rule ignores just the components a numeric reading ignores |
| VersionOrder.WellFormedChars | src/cli/dsl.c:39-42 | a well-formed version passes the character check of dsl_compare_version |
| VersionOrder.ComponentValue | src/cli/dsl.c:45-48 | strtoumax reads the first component of a well-formed version as its decimal value, consuming at least one digit and staying below the saturation value |
| VersionOrder.ComponentNumbers | src/cli/dsl.c:59-60 | after a component and its dot, what remains is again well-formed (or empty), and the numbers of the version are the component followed by the numbers of the rest |
| VersionOrder.WalkIsNumericEnd | src/cli/dsl.c:62-76 | once either operand is used up, the walk decides what the zero-padded numeric comparison decides |
| VersionOrder.WalkDiffers | src/cli/dsl.c:49-58 | a pair of differing components decides the walk as it decides the numeric comparison |
| VersionOrder.WalkIsNumeric | src/cli/dsl.c:44-76 | on well-formed operands the walk of dsl_compare_version decides exactly what the zero-padded comparison of the component number sequences decides |
| VersionOrder.CompareVersionIsNumeric | src/cli/dsl.c:33-77 | dsl_compare_version on two well-formed versions returns 1 when the comparator accepts the numeric comparison and 0 when it does not, never -1 |
| NvcInfo.LibraryNames | src/nvc_info.c:22-30 | the listed library names never exceed MAX_LIBS |
| NvcInfo.BinaryNames | src/nvc_info.c:22-23 | the listed binary names never exceed MAX_BINS |
| NvcInfo.LibraryNamesEmpty | src/nvc_info.c:266-278 | no library name is listed exactly when none of the utility, compute, video and graphics library options is set |
| NvcInfo.GraphicTail | src/nvc_info.c:272-278 | with graphics the list ends in the four compat libraries under no-glvnd and in the four GLVND libraries otherwise |
| NvcInfo.MpsBinaries | src/nvc_info.c:304-307 | the MPS control binary is listed exactly with compute binaries and without no-mps; the list holds three utility and two MPS binaries as those options say |
| NvcInfo.CollectLibraries | src/nvc_info.c:262-278 | the array_append calls into the MAX_LIBS array produce exactly LibraryNames |
| NvcInfo.AppendGraphics | src/nvc_info.c:272-278 | the graphics appends extend the filled prefix by the common graphics libraries and then the compat or GLVND set |
| NvcInfo.CollectBinaries | src/nvc_info.c:300-307 | the array_append calls into the MAX_BINS array produce exactly BinaryNames |
| NvcInfo.Append | src/utils.c:263-268 | array_append extends the filled prefix of the array by the source entries and returns the position after them |
| NvcInfo.Hit | src/nvc_info.c:207-216 | a hit in a PATH entry is always an executable path |
| NvcInfo.FirstHit | src/nvc_info.c:207-216 | the first PATH entry's hit is always an executable path |
| NvcInfo.VisitDir | src/nvc_info.c:210-221 | the scan of one PATH entry keeps one slot per name |
| NvcInfo.SearchPath | src/nvc_info.c:207-222 | the scan of the PATH entries keeps one slot per name |
| NvcInfo.FindBinaryPathsSpec | src/nvc_info.c:186-228 | a successful search has one slot per binary name |
| NvcInfo.VisitDirDone | src/nvc_info.c:210-221 | one PATH entry's scan succeeds exactly when every still-empty slot it has an executable for can be resolved with realpath |
| NvcInfo.VisitDirFills | src/nvc_info.c:210-221 | one PATH entry fills exactly the empty slots whose binary it holds, with the real path, and leaves the rest unchanged |
| NvcInfo.SearchPathMeaning | src/nvc_info.c:207-222 | the PATH search fills each empty slot with the real path of its binary's first hit and succeeds exactly when every such first hit resolves |
| NvcInfo.FirstExecutableWins | src/nvc_info.c:186-228 | find_binary_paths keeps for every binary the real path of the first PATH entry holding it executable, and fails exactly when such a real path cannot be taken |
| NvcInfo.FindBinaryPaths | src/nvc_info.c:186-228 | returns 0 exactly when the search succeeds, with one slot per name holding the search's result, and -1 with the error recorded otherwise |
| NvcInfo.ScanDir | src/nvc_info.c:210-221 | the inner loop over one PATH entry reports the search's failure or leaves the slots as VisitDir says |
| NvcInfo.Basename | src/nvc_info.c:123 | the base name never holds a '/' |
| NvcInfo.SelectedLibraries | src/nvc_info.c:111-148 | a candidate is taken exactly when it opens, its name ends in the kernel module's version, a TLS library has the 2.3.99 ABI, and a compat GL library depends on the GL core or, failing that, on the EGL core |
| NvcInfo.Slots | src/nvc_info.c:150-184 | the array filled by ldcache_resolve has one slot per name |
| NvcInfo.ResolveAll | src/nvc_info.c:150-184 | a resolution has one 64-bit slot per name and no 32-bit slot without compat32 |
| NvcInfo.CloseFailureWins | src/nvc_info.c:150-184 | a cache that opens but fails to close fails the lookup with the close's error |
| NvcInfo.LibrariesFound | src/nvc_info.c:260-296 | the libraries found are all non-NULL and never more than the names listed, there are no 32-bit ones without compat32, and without a library option nothing is looked up |
| NvcInfo.FindLibraryPaths | src/nvc_info.c:150-184 | returns 0 exactly when the lookup succeeds, with two distinct fresh arrays holding the 64-bit and 32-bit slots, and -1 with the error recorded otherwise |
| NvcInfo.LookupLibraries | src/nvc_info.c:260-296 | the packed libraries equal LookupLibrariesSpec, and the error record follows its failure |
| NvcInfo.Pack | src/utils.c:270-286 | the entries left in use after array_pack are the non-NULL entries in order |
| NvcInfo.PackedPrefix | src/utils.c:270-286 | the first entries of a packed array are exactly the non-NULL ones |
| NvcInfo.BinariesFound | src/nvc_info.c:298-320 | the binaries found are non-NULL and never more than the names listed; without a binary option nothing is searched; with one an unset PATH fails the lookup |
| NvcInfo.NoMpsListsNothing | src/nvc_info.c:304-311 | compute binaries under no-mps without utility binaries list no name, yet still reach the PATH search |
| NvcInfo.LookupBinaries | src/nvc_info.c:298-320 | the packed binaries equal LookupBinariesSpec, and the error record follows its failure |
| NvcInfo.DevicesListed | src/nvc_info.c:322-351 | the device list starts with the control device and lists a UVM device exactly when its stat succeeds; it fails exactly when a stat fails other than with ENOENT; under no-uvm it is the control device alone |
| NvcInfo.MissingUvmRecorded | src/nvc_info.c:230-240 | a missing UVM device is skipped, and its ENOENT error is what the error record holds afterwards |
| NvcInfo.FindDeviceNode | src/nvc_info.c:230-240 | returns 1 with the node, 0 for a missing path and -1 for any other stat failure, recording the stat's error |
| NvcInfo.LookupDevices | src/nvc_info.c:322-351 | the devices equal LookupDevicesSpec, and the error record is as DevicesAfter says |
| NvcInfo.IpcSlot | src/nvc_info.c:353-376 | an enabled IPC path takes at most one slot |
| NvcInfo.SlotsNonNull | src/nvc_info.c:359-374 | the NULL slots past the filled ones leave nothing to pack |
| NvcInfo.IpcsListed | src/nvc_info.c:353-376 | at most two IPC paths are listed, all present; with both disabled none; the persistenced socket comes first when it exists and resolves |
| NvcInfo.MpsPipeOverride | src/nvc_info.c:364-374 | with only MPS enabled the listing is the real path of CUDA_MPS_PIPE_DIRECTORY, or of the default pipe directory, when it exists |
| NvcInfo.FindIpcPath | src/nvc_info.c:242-258 | returns 0 with the real path or NULL for a missing path, and -1 with the error recorded otherwise |
| NvcInfo.LookupIpcs | src/nvc_info.c:353-376 | the packed IPC paths equal LookupIpcsSpec, and the error record follows its failure |
| NvcInfo.DriverInfoListed | src/nvc_info.c:378-412 | a driver listing carries the two versions queried, only non-NULL library and binary paths within the listed names, the control device first and at most two IPC paths, and under no-uvm only the control device; a failure always leaves an error message |
| NvcInfo.DriverInfoNew | src/nvc_info.c:378-412 | a NULL context gives nothing; an uninitialized one sets "context uninitialized"; otherwise the result and the error record are those of DriverInfoSpec |
| NvcInfo.SignedDecimal | src/nvc_info.c:465 | printing a minor number always yields some digits |
| NvcInfo.ProbeFromDone | src/nvc_info.c:456-470 | the GPU loop completes exactly when every GPU from the current index on answers |
| NvcInfo.ProbeFromLists | src/nvc_info.c:456-470 | a completed loop appends one entry per index, in index order, each built from that GPU's facts |
| NvcInfo.DeviceInfoSpec | src/nvc_info.c:429-476 | a device listing fails exactly when an error is reported |
| NvcInfo.GpusEnumerated | src/nvc_info.c:429-476 | a listing holds one GPU per index below the count, in order, with the driver's UUID and bus id and the node /dev/nvidia<minor> of major 195; it exists exactly when the count and every GPU query succeed |
| NvcInfo.SmallMinorPath | src/nvc_info.c:465 | below 2^31 the device path is /dev/nvidia followed by the plain decimal minor |
| NvcInfo.DeviceInfoNew | src/nvc_info.c:429-476 | a NULL context gives nothing; an uninitialized one sets "context uninitialized"; otherwise the result and the error record are those of DeviceInfoSpec |
| NvcInfo.ListDevices | src/nvc_info.c:440-470 | past the context check: bad options set their message, a failed count records its error, and otherwise the listing and the error record are those of DeviceInfoSpec |
| NvcInfo.ProbeGpus | src/nvc_info.c:456-470 | the loop over the GPU array gives the listing of ProbeFrom, or records the first failing GPU's error |
| LdCache.Ascii | src/ldcache.c:19-21 | the bytes of a text are as many as its characters |
| LdCache.Chars | src/ldcache.c:122-123 | the characters of a byte string are as many as its bytes |
| LdCache.U32At | src/ldcache.c:49 | a 32-bit word read from the mapping is below 2^32 |
| LdCache.Le32 | src/ldcache.c:49-50 | a 32-bit word is written as four bytes |
| LdCache.Le32RoundTrip | src/ldcache.c:49-50 | a word written little-endian reads back as itself |
| LdCache.Aligned | src/ldcache.c:78-79 | the padded offset is a multiple of the libc6 header's alignment and lies less than one alignment past the offset |
| LdCache.HeaderAccepted | src/ldcache.c:61-95 | an accepted libc6 header is aligned, is followed by more bytes than its own size, carries the glibc magic and version 1.1, and is at the start of the file unless a libc5 table sits in front, past whose entries it lies |
| LdCache.ShortFileRefused | src/ldcache.c:73-74 | a file no longer than the libc5 header is refused whatever it holds |
| LdCache.Libc6Header | src/ldcache.c:46-53 | the header ldconfig writes has the size of struct header_libc6 |
| LdCache.NewFormatRoundTrip | src/ldcache.c:82-89 | a new-format cache is accepted with its header at the start, and its entry count reads back |
| LdCache.CompatFormatSkipped | src/ldcache.c:75-80 | in a compat cache the libc6 header is looked for at the first aligned offset past the libc5 entries |
| LdCache.CString | src/ldcache.c:122-123 | a string read from the mapping holds no NUL byte |
| LdCache.Entries | src/ldcache.c:120-123 | the entry table has exactly nlibs entries |
| LdCache.PlaceFrom | src/ldcache.c:128-144 | the inner loop keeps one slot per name |
| LdCache.ResolveFrom | src/ldcache.c:120-145 | the outer loop keeps one slot per name |
| LdCache.Nulls | src/ldcache.c:118 | the memset leaves one NULL slot per name |
| LdCache.PlaceChangesOne | src/ldcache.c:128-144 | one entry changes at most one slot, at or after the starting name; the changed slot's name is a prefix of the key, and it now holds the resolved path the selector accepted; every earlier prefix-matching slot already held that path |
| LdCache.PlaceSourced | src/ldcache.c:120-144 | placing a considered entry keeps every filled slot holding a path some entry supplies for its name |
| LdCache.ResolveSourced | src/ldcache.c:120-145 | the outer loop keeps every filled slot sourced |
| LdCache.FilledFromCache | src/ldcache.c:109-147 | every slot ldcache_resolve fills holds the resolved value of an ELF entry of the wanted architecture whose key starts with the slot's name |
| LdCache.NothingConsidered | src/ldcache.c:125-126 | with no entry of the wanted architecture every slot is left as it was and nothing is consulted |
| LdCache.LdCache.constructor | src/ldcache.c:55-59 | ldcache_init records the error and the path and leaves no mapping, no header pointer and size 0 |
| LdCache.LdCache.Open | src/ldcache.c:61-95 | a file that cannot be mapped fails with file_map's error; a mapped file is accepted exactly when a libc6 header is found, with the header pointer at it and the error untouched; otherwise "unsupported file format: " and the path is set and the mapping released |
| LdCache.LdCache.Unsupported | src/ldcache.c:91-94 | the fail path sets "unsupported file format: " and the path, releases the mapping and returns -1 |
| LdCache.LdCache.Close | src/ldcache.c:97-107 | a failed unmap returns -1 with its error and leaves the fields as they were; a successful one returns 0 and clears the mapping, the pointer and the size |
| LdCache.LdCache.Resolve | src/ldcache.c:109-147 | returns 0 exactly when ResolveSpec succeeds, leaving the slots as it says, and -1 with the first error of path_resolve or of the selector otherwise |
| LdCache.Place | src/ldcache.c:128-144 | the loop over the names for one entry reports PlaceFrom's failure or leaves the slots as it says |
| CliContext.Join | src/cli/configure.c:78-109 | a flag join makes the chosen flag string the old one with the word joined on by a space, and changes no other flag string and nothing else in the context |
| CliContext.StoredBounded | src/cli/configure.c:68-74 | a requirement is stored exactly while the array has room, appended after the ones in use with nothing else changed; otherwise "too many requirements" is fatal and the context is unchanged |
| CliContext.JoinExtends | src/cli/configure.c:78-109 | a word joined into a flag string that holds some words makes it hold those words and the new one |
| CliContext.JoinedSplits | src/options.c:14-44 | a flag string joined from non-empty words without spaces is non-empty and splits on ' ' back into exactly those words, which is how options_parse reads it |
| CliContext.PositionalsAppend | src/cli/configure.c:110-118 | the positional arguments of two event lists add up |
| CliContext.RunAppend | src/cli/configure.c:53-141 | a parser walk over two event lists is the walk over the first and then, if every call returned 0, the walk over the second with arg_num advanced |
| CliContext.AtMostOnePositional | src/cli/configure.c:110-112 | under the ROOTFS guard a walk that goes through has seen at most one positional argument, and none if one came before |
| CliContext.ExactlyOnePositional | src/cli/configure.c:110-132 | a walk that goes through the end of the arguments has seen exactly one ROOTFS |
| CliContext.Context.constructor | src/cli/main.c:123 | a new context is the zeroed one, with the requirement array of the given capacity |
| CliContext.Context.JoinFlag | src/cli/configure.c:78-109 | str_join into a flag string leaves the context that Join says |
| CliContext.Context.AddRequirement | src/cli/configure.c:68-74 | the 'r' option's reply and new context are those of Stored for the array's length |
| CliContext.FirstFailureMeaning | src/cli/configure.c:254-269 | requirements are checked in order and the first failure decides: none is reported exactly when all hold, and a reported one is the message of a failing requirement preceded only by holding ones |
| CliContext.MessageOfFailure | src/cli/configure.c:255-257 | an evaluation leaves a message exactly when it does not hold |
| NvcCli.FlagRouting | src/nvc_cli.c:299-330 | a capability option joins its word into both the driver and the device flags; compat32 goes into the driver flags only; no-cgroups and no-devbind go into the container flags only; the rest of the context stays as it was |
| NvcCli.PidRule | src/nvc_cli.c:340-349 | at the end of a successful parse a positive pid is kept and marks the container supervised; otherwise the parent's pid is taken and the container is standalone |
| NvcCli.RootfsRule | src/nvc_cli.c:331-339 | the first positional argument becomes the rootfs exactly when it does not resolve to "/"; otherwise "invalid rootfs directory" is fatal |
| NvcCli.ConfigureGuardsPositionals | src/nvc_cli.c:331-352 | configure_parser stops with usage on a second positional argument and on none at the end |
| NvcCli.ConfigureOneRootfs | src/nvc_cli.c:274-362 | a configure command line that parses has exactly one ROOTFS before the end of the arguments |
| NvcCli.RequirementsCounted | src/nvc_cli.c:289-295 | each --require that goes through appends one expression, in order, and nothing else adds one; a parse that goes through has stored at most 16 |
| NvcCli.ConfigureParser | src/nvc_cli.c:274-362 | configure_parser's reply and the context it leaves are those of ConfigureStep |
| NvcCli.ListParser | src/nvc_cli.c:226-272 | list_parser's reply and the context it leaves are those of ListStep |
| NvcCli.ListKeepsConfigure | src/nvc_cli.c:226-272 | list_parser leaves positional arguments, the end keys, --require and --pid to argp, and never touches the requirements, the rootfs, the pid or the container flags |
| NvcCli.RulesCompare | src/nvc_cli.c:140-143 | the rule "cuda" compares the driver's CUDA version and "driver" its kernel module version, with dsl_compare_version |
| NvcCli.CheckRequirements | src/nvc_cli.c:588-593 | the requirement loop reports the first failing stored expression's message, or nothing when all hold |
| CliConfigure.FlagsToContainer | src/cli/configure.c:78-109 | every flag option, the capabilities included, joins its word into the container flags only; the driver and device flags and the rest of the context stay as they were |
| CliConfigure.ConfigureJoinsFlagWords | src/cli/configure.c:59-132 | before the success call only the flag options write the container flags, each joining its own word |
| CliConfigure.FlagWordJoined | src/cli/configure.c:78-109 | one parser call adds its key's word, if any, to the words joined into the container flags |
| CliConfigure.FlagWordsJoined | src/cli/configure.c:78-109 | over any walk before the success call the container flags grow by the flag options' words in order |
| CliConfigure.ContainerFlagsJoined | src/cli/configure.c:53-141 | over the options and arguments of a command line the container flags grow by the flag options' words, in order, space-separated |
| CliConfigure.PidRule | src/cli/configure.c:119-128 | at the end of a successful parse a positive pid is kept and marks the container supervised; otherwise the parent's pid is taken and the container is standalone |
| CliConfigure.RootfsRule | src/cli/configure.c:110-118 | the first positional argument becomes the rootfs exactly when it starts with '/' and is not "/"; otherwise "invalid rootfs directory" is fatal |
| CliConfigure.ConfigureGuardsPositionals | src/cli/configure.c:110-132 | configure_parser stops with usage on a second positional argument and on none at the end |
| CliConfigure.ConfigureOneRootfs | src/cli/configure.c:53-141 | a configure command line that parses has exactly one ROOTFS before the end of the arguments |
| CliConfigure.RequirementsCounted | src/cli/configure.c:68-74 | each --require that goes through appends one expression, in order, and nothing else adds one; a parse that goes through has stored at most 32 |
| CliConfigure.ConfigureParser | src/cli/configure.c:53-141 | configure_parser's reply and the context it leaves are those of ConfigureStep |
| CliConfigure.VacuousWithoutGpu | src/cli/configure.c:155-171 | with no GPU bound, a term naming arch or brand, in any letter case, holds whatever it compares |
| CliConfigure.DeviceChecksMeaning | src/cli/configure.c:249-261 | the per-GPU checks pass exactly when every selected GPU passes every requirement |
| CliConfigure.RequirementsMeaning | src/cli/configure.c:245-270 | the requirements are met exactly when every requirement holds for every selected GPU, or, with no GPU selected, holds with no GPU bound |
| CliConfigure.EvaluateAll | src/cli/configure.c:254-259 | the inner loop reports the first failing stored requirement's message, in order, or nothing |
| CliConfigure.CheckRequirements | src/cli/configure.c:245-270 | the requirement check's report is RequirementsCheck over the selected GPUs |

## Left out

- Memory allocation failures (xcalloc, xstrdup, xasprintf, vasprintf, strjoin's realloc, array_new) are not modelled: every allocation succeeds. Freeing memory is not modelled either.
- Logging (log_infof, log_warnf, log.Printf, cmd/logger.go) has no effect on the model and is left out.
- The outside world is passed in as parameters, one value or function per call:
  - file contents, stat, access, realpath, getppid, getenv and strerror;
  - the mmap'd ld.so.cache bytes and the unmap result;
  - path_resolve and the library selector;
  - the ELF queries of select_libraries;
  - the driver's RPC answers;
  - fork, modprobe and the mount-namespace descriptor;
  - exec.LookPath, os.Stat, os.Getwd and the JSON and TOML decoders.
- The JSON encoder is not modelled. It never fails on a spec it decoded itself, so the "error marshalling modified OCI specification" return of cmd/main.go:241-244 and the "marchal OCI spec file" exit of runtime/src/main.go:154-155 are left out of Shim.Run and LegacyShim.ShimMain.
- Exec is a terminal call: syscall.Exec either replaces the process (an Exec outcome) or returns, which the model treats as an error.
- The child process forked by load_kernel_modules is not modelled; the model follows only the parent up to the fork.
- The remaining steps of nvc_container_new between the mode check and the namespace lookup are folded into one outcome, `prepare`. These are copy_config, lookup_owner and find_library_paths, including the OPT_NO_CNTLIBS test. Only their success or their error matters to the rest of the call.
- The four per-GPU driver queries of nvc_device_info_new (UUID, bus id, minor and the rest) are folded into one probe per GPU index.
- Container.ContainerNewSpec: the fields nvc_container_new fills besides the flags, pid, rootfs, mount namespace and devices cgroup are not modelled (owner, directories, library paths).
- src/utils.c: these parts are filesystem and privilege I/O and are not part of this model:
  - log_*, file_*, perm_*, nsenter and nsenterat;
  - make_ancestors, openrel and path_resolve;
  - get_umask and set_fsugid.
- src/driver.c, src/elftool.c, src/error.c, src/nvc_mount.c, src/nvc_ldcache.c, src/nvc_exec.c and src/nvc_entry.c are not part of this model: process, RPC, mount and ELF plumbing.
- src/cli/main.c, src/cli/list.c and src/cli/info.c are not part of this model. In src/nvc_cli.c only the parsers and the requirement loop are modelled; main_parser, list_command and the rest of configure_command are left out.
- argp itself is not modelled beyond CliContext.Run: options and positional arguments in order, then ARGP_KEY_END, then ARGP_KEY_SUCCESS, each call's reply stopping or continuing the walk.
- NVC_ARG_MAX comes from a header that is not part of this model. It is the parameter `argMax` of Options.Parse and of every caller.
- The option tables of the older nvc.c and nvc_container.c come from a header that is not part of this model. They are the parameter LegacyNvc.OptionSetup (the table, the default option string and the load-uvm bit) and the matching parameters of LegacyContainer.
- The older nvc_container.c directory constants are those of an x86_64 build. LdCache's LIB_ARCH and LIB32_ARCH are likewise the x86_64 values.
- ld.so.cache words are read little-endian, as on the x86_64 host the cache is written on.
- The padding in ldcache_open is computed from the file offset. That equals the C computation on the pointer because mappings are page aligned.
- LdCache.LdCache.Resolve: requires that the entry table lie inside the mapping. A cache whose nlibs points past the end makes the C code read outside the mapping, which is undefined behaviour.
- Container.ReadMountFields, Container.CgroupMount and LegacyContainer.LegacyMount: on a mountinfo line of five space-separated fields or fewer, the C code (src/nvc_container.c:59-62, nvc_container.c:58-59) hands NULL to strchr, which is undefined behaviour and crashes with glibc. The model instead treats strchr(NULL) as NULL, so the line is rejected and the scan goes on (Container.ShortLineRejected). Mountinfo lines written by the kernel always have more fields.
- LdCache.CString: a key or value string that runs to the end of the mapping ends there. In C it would read past the mapping.
- LdCache.LdCache.Open: when file_map fails, the size it leaves is not modelled.
- ldcache_resolve is called in src/nvc_info.c with fewer arguments than src/ldcache.c declares. NvcInfo therefore sees the cache as one Ldcache value (open, resolve per architecture, close) and does not use LdCache.LdCache.Resolve directly.
- The newer helper names str_join, str_to_pid, str_empty, str_equal and str_has_prefix, used by src/cli/ and src/ldcache.c, come from a utils.c that is not part of this model. They are modelled by the same functions as strjoin, strtopid, strempty, strcmp == 0 and strpcmp == 0 of src/utils.c.
- ErrorGeneric.LowerFromLastColon: str_lower also comes from that missing utils.c. The model assumes it lowers ASCII letters in place and does nothing when handed NULL, which is what strrchr returns when the cut message has no ':' (a text holding a newline before its ": "). That message is then kept as it is.
- Utils.StrEmpty: strempty (src/utils.c:154-158) is a predicate whose meaning is its one-line body, true only for a non-NULL empty string; it has no contract of its own.
- Text.StrToUMax: strtoumax's skipping of leading white space and its sign handling are modelled as glibc does them in the C locale. Locale-dependent digits are left out.
- LegacyDsl.DslEvaluate: the C dsl_evaluate of src/dsl.c cuts the caller's buffer in place with strsep. The model evaluates the expression as a value and does not capture the overwritten buffer.
- LegacyShim.AddNvidiaHook: in runtime/src/main.go the `path :=` inside the fallback branch shadows the outer variable. The model keeps this as written, so the appended hook's path is LookPath's failed result, not the default path.
- Nvc.Shutdown and Nvc.NvcError also model the older nvc.c's nvc_shutdown and nvc_error. Their text is the same apart from the free(ctx->cfg.root) of src/nvc.c:314, which the older nvc_shutdown lacks and which the model does not see, since freeing is left out.
- Dsl.DslCompareVersion also models the dsl_compare_version of src/dsl.c, whose text is the same; unsigned long and uintmax_t are both 64 bits wide on LP64.
- DeviceSelect.SelectDevices also models select_gpu_devices of src/nvc_cli.c, whose text is the same.
- Prestart.CapabilityToCli, Prestart.CapFlagsMeaning, Prestart.ConfigureArgs and Prestart.DoPrestart also model capabilityToCLI, the capability loop, the argument vector and doPrestart of hook/nvidia-container-runtime-hook/main.go (lines 34-50, 87-92, 65-101 and 52-107). That text is the same as the newer hook's apart from where the container state comes from (`doPrestart(state HookState)` calls `getContainerConfig(hook, state)`) and where the deferred exit sits (in main, line 115, rather than in doPrestart).
- Prestart.DoPrestart: the container facts (pid, rootfs, devices, capabilities, requirements and disable-require) are a parameter. nvidia-container-runtime-hook/main.go:57 calls `getContainerConfig(hook)` and reads `nvidia.Requirements` and `nvidia.DisableRequire` (lines 93-95), but the container_config.go beside it declares `getContainerConfig()` with no parameter (line 144) and an nvidiaConfig with only Devices, Capabilities and CudaVersion (lines 20-24). The container_config.go that main.go was written against is not part of this model. So the result of ContainerConfig.GetContainerConfig does not feed the prestart step, and no lemma ties a container's environment (for example NVIDIA_VISIBLE_DEVICES=none) to the configure arguments.
- CliContext.Context.constructor and CliContext.StoredBounded also model the context of src/nvc_cli.c (line 651) and its 'r' option (lines 289-295). That context has 16 requirement slots instead of 32; the capacity is a parameter.
- Printing a pid or a minor number goes through Text.Decimal for non-negative values. NvcInfo.SignedDecimal covers minor numbers from 2^31 on, which %d prints as negative.
