# Dafny project file: `dafny verify dfyconfig.toml` checks every module.
includes = ["**/*.dfy"]
