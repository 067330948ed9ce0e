TestResult.DisplayName,TestResult.Outcome,TestResult.Duration,TestResult.ResourceCount,RandomSeed
CommandPalette.GroupStep (correctness),Failed,00:00:14.4492094,20057994,2
CommandPalette.AddToGroupsKeepsOrder (correctness),Passed,00:00:01.4426184,2552500,2
CommandPalette.ExtendGroupStep (correctness),Passed,00:00:00.5046640,1334868,2
CommandPalette.OpenGroupStep (correctness),Passed,00:00:00.4183488,651722,2
CommandPalette.KeepMatching (well-formedness),Passed,00:00:00.2338229,87267,2
CommandPalette.KeywordMatches (well-formedness),Passed,00:00:00.1701130,34715,2
CommandPalette.Matches (well-formedness),Passed,00:00:00.1701127,51317,2
CommandPalette.PaletteIndexInvariant (correctness),Passed,00:00:00.1265974,98327,2
CommandPalette.KeepMatchingAppend (correctness),Passed,00:00:00.1127376,122035,2
CommandPalette.AddToGroupsKeepsOrder (well-formedness),Passed,00:00:00.1090974,61525,2
CommandPalette.NewCategoryFirstAt (correctness),Passed,00:00:00.1080891,97348,2
CommandPalette.GroupCommands (correctness),Passed,00:00:00.0938902,160057,2
CommandPalette.PaletteIndexInvariant (well-formedness),Passed,00:00:00.0866916,92866,2
CommandPalette.AddToGroups (well-formedness),Passed,00:00:00.0847047,81475,2
CommandPalette.OpenGroupStep (well-formedness),Passed,00:00:00.0753448,40375,2
CommandPalette.PressKey (well-formedness),Passed,00:00:00.0728283,84377,2
CommandPalette.NavigationStaysInRange (well-formedness),Passed,00:00:00.0702682,32258,2
CommandPalette.GroupsOf (well-formedness),Passed,00:00:00.0675041,55834,2
CommandPalette.GroupStep (well-formedness),Passed,00:00:00.0674270,63349,2
CommandPalette.AddToGroupsStep (correctness),Passed,00:00:00.0670686,96186,2
CommandPalette.InCategoryAbsent (correctness),Passed,00:00:00.0639754,51617,2
CommandPalette.FilterCommands (well-formedness),Passed,00:00:00.0634035,56138,2
CommandPalette.FirstOf (well-formedness),Passed,00:00:00.0560769,73626,2
CommandPalette.HandleKeyDown (well-formedness),Passed,00:00:00.0556611,48921,2
CommandPalette.FilterIgnoresCase (correctness),Passed,00:00:00.0542035,60337,2
CommandPalette.ExtendGroupStep (well-formedness),Passed,00:00:00.0522493,42347,2
CommandPalette.NavigationStaysInRange (correctness),Passed,00:00:00.0512208,42497,2
CommandPalette.InCategorySnoc (correctness),Passed,00:00:00.0460584,33888,2
CommandPalette.InCategory (well-formedness),Passed,00:00:00.0459979,56327,2
CommandPalette.NoMatchesArrowDownThenEnter (correctness),Passed,00:00:00.0443811,32736,2
CommandPalette.GroupCommands (well-formedness),Passed,00:00:00.0441018,51157,2
CommandPalette.GroupIndex (well-formedness),Passed,00:00:00.0437790,47645,2
CommandPalette.NewCategoryFirstAt (well-formedness),Passed,00:00:00.0405644,42910,2
CommandPalette.GroupedInOrder (well-formedness),Passed,00:00:00.0320197,31445,2
CommandPalette.HandleClose (well-formedness),Passed,00:00:00.0237281,10633,2
CommandPalette.SearchChanged (well-formedness),Passed,00:00:00.0204016,10712,2
