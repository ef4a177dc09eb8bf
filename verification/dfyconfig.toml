# Verified model of provider-runpod.
includes = ["**/*.dfy"]
